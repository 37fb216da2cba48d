/** The guard that a Terraform state repair removed one taint mark and nothing else. */
module StateUntaint {
  import opened Text
  import opened Sorting
  import opened Json

  const SecretType := "aws_secretsmanager_secret"
  const VersionType := "aws_secretsmanager_secret_version"
  const TargetName := "app_runtime"
  const SecretName := "/mycfc/production/app-runtime-secrets-v2"
  const SecretArn := "arn:aws:secretsmanager:eu-west-1:334960985019:secret:/mycfc/production/app-runtime-secrets-v2-sVoQ2n"
  const LegacyName := "/mycfc/production/app-secrets"
  const LegacyArnPrefix := "arn:aws:secretsmanager:eu-west-1:334960985019:secret:/mycfc/production/app-secrets-"

  // ----- resources and their single instance -----

  function ItemsOf(v: Value): seq<Value> { if v.Arr? then v.items else [] }

  predicate IsNamed(r: Value, kind: string, name: string) { r.Get("type") == Str(kind) && r.Get("name") == Str(name) }

  /** The positions of the resources with the given type and name. */
  function Positions(rs: seq<Value>, kind: string, name: string): (ps: seq<nat>)
    ensures forall p: nat :: p in ps <==> p < |rs| && IsNamed(rs[p], kind, name)
  {
    if rs == [] then []
    else
      var n := |rs| - 1;
      var before := Positions(rs[..n], kind, name);
      assert forall p: nat :: p < n ==> rs[p] == rs[..n][p];
      if IsNamed(rs[n], kind, name) then before + [n] else before
  }

  predicate AllObjects(v: Value) { v.Arr? && forall x :: x in v.items ==> x.Obj? }

  function Resources(state: Value): seq<Value> { ItemsOf(state.Get("resources")) }

  /** instance(state, kind, name, required=False) does not refuse. */
  predicate NoInstance(state: Value, kind: string, name: string)
  {
    AllObjects(state.Get("resources")) && Positions(Resources(state), kind, name) == []
  }

  predicate ManagedSingle(r: Value)
  {
    && r.Obj? && r.Get("mode") == Str("managed") && r.Get("module") == Null
    && r.Get("instances").Arr? && |r.Get("instances").items| == 1
    && var item := r.Get("instances").items[0];
       item.Obj? && !item.Has("index_key") && !item.Has("deposed") && item.Get("attributes").Obj?
  }

  /** The position of the resource whose instance instance(state, kind, name) returns. */
  function InstanceAt(state: Value, kind: string, name: string): (r: Option<nat>)
    ensures r.Some? ==> r.value < |Resources(state)| && ManagedSingle(Resources(state)[r.value])
    ensures r.Some? ==> IsNamed(Resources(state)[r.value], kind, name)
  {
    var ps := Positions(Resources(state), kind, name);
    if AllObjects(state.Get("resources")) && |ps| == 1 then
      assert ps[0] in ps;
      if ManagedSingle(Resources(state)[ps[0]]) then Some(ps[0]) else None
    else None
  }

  function InstanceIn(r: Value): Value
    requires ManagedSingle(r)
  {
    r.Get("instances").items[0]
  }

  function Instance(state: Value, kind: string, name: string): Value
    requires InstanceAt(state, kind, name).Some?
  {
    InstanceIn(Resources(state)[InstanceAt(state, kind, name).value])
  }

  // ----- the identity check -----

  predicate HexOrDash(c: char) { IsDigit(c) || 'a' <= c <= 'f' || 'A' <= c <= 'F' || c == '-' }

  predicate AlphaNumeric(c: char) { IsDigit(c) || 'a' <= c <= 'z' || 'A' <= c <= 'Z' }

  predicate ValidLineage(v: Value) { v.Str? && |v.s| == 36 && forall i :: 0 <= i < 36 ==> HexOrDash(v.s[i]) }

  /** A number that Python prints as the non-negative integer n. */
  predicate IsNat(v: Value, n: nat) { v == Num(Decimal(n)) }

  predicate AllDigits(s: string) { forall i :: 0 <= i < |s| ==> IsDigit(s[i]) }

  function NatOf(v: Value): (r: Option<nat>)
    ensures r.Some? ==> IsNat(v, r.value)
  {
    if v.Num? && AllDigits(v.lexeme) && v.lexeme == Decimal(ValueOf(v.lexeme)) then Some(ValueOf(v.lexeme)) else None
  }

  lemma NatOfExact(v: Value, n: nat)
    requires IsNat(v, n)
    ensures NatOf(v) == Some(n)
  {
    DecimalValue(n);
  }

  predicate Unset(v: Value) { v == Null || v == Str("") }

  predicate Untainted(status: Value) { status == Null || status == Str("ready") }

  predicate TargetAttributes(attrs: Value)
  {
    && attrs.Get("name") == Str(SecretName) && attrs.Get("id") == Str(SecretArn) && attrs.Get("arn") == Str(SecretArn)
    && attrs.Get("description") == Str("MyCFC production web-runtime secrets v2")
    && attrs.Get("recovery_window_in_days") in {Num("30"), Num("30.0")}
    && attrs.Get("force_overwrite_replica_secret") == Bool(false)
    && Unset(attrs.Get("kms_key_id")) && attrs.Get("replica") in {Null, Arr([])} && Unset(attrs.Get("name_prefix"))
  }

  predicate LegacyArn(s: string)
  {
    && |s| == |LegacyArnPrefix| + 6 && StartsWith(s, LegacyArnPrefix)
    && forall i :: |LegacyArnPrefix| <= i < |s| ==> AlphaNumeric(s[i])
  }

  predicate LegacySecret(item: Value)
  {
    && Untainted(item.Get("status"))
    && var attrs := item.Get("attributes");
       && attrs.Get("name") == Str(LegacyName) && attrs.Get("arn").Str? && LegacyArn(attrs.Get("arn").s)
       && attrs.Get("id") == attrs.Get("arn")
  }

  predicate LegacyVersion(item: Value, arn: string)
  {
    && Untainted(item.Get("status"))
    && var attrs := item.Get("attributes");
       && attrs.Get("secret_id") == Str(arn) && attrs.Get("version_id").Str? && attrs.Get("version_id").s != ""
       && attrs.Get("id") == Str(arn + "|" + attrs.Get("version_id").s)
  }

  /** The part of state_identity that looks at neither the serial nor the target's status. */
  predicate Surroundings(state: Value)
  {
    && state.Obj? && state.Get("version") in {Num("4"), Num("4.0")} && ValidLineage(state.Get("lineage"))
    && InstanceAt(state, SecretType, TargetName).Some?
    && TargetAttributes(Instance(state, SecretType, TargetName).Get("attributes"))
    && NoInstance(state, VersionType, TargetName)
    && NoInstance(state, SecretType, "runtime") && NoInstance(state, VersionType, "runtime")
    && InstanceAt(state, SecretType, "legacy_runtime").Some? && LegacySecret(Instance(state, SecretType, "legacy_runtime"))
    && InstanceAt(state, VersionType, "legacy_runtime").Some?
    && LegacyVersion(Instance(state, VersionType, "legacy_runtime"),
                     Instance(state, SecretType, "legacy_runtime").Get("attributes").Get("arn").s)
  }

  /** state_identity: the serial, or None when the guard refuses. */
  function StateIdentity(state: Value, tainted: bool): (r: Option<nat>)
    ensures r.Some? ==> Surroundings(state) && IsNat(state.Get("serial"), r.value)
  {
    if !Surroundings(state) then None
    else
      var status := Instance(state, SecretType, TargetName).Get("status");
      if (if tainted then status == Str("tainted") else Untainted(status)) then NatOf(state.Get("serial")) else None
  }

  // ----- the canonical state -----

  /** str.isspace for one character. */
  predicate PythonSpace(c: char) { IsSpace(c) || 28 <= c as int <= 31 }

  /** isinstance(v, str) and bool(v.strip()). */
  predicate NonBlank(v: Value) { v.Str? && exists i :: 0 <= i < |v.s| && !PythonSpace(v.s[i]) }

  function StrOf(v: Value): string { if v.Str? then v.s else "" }

  function CheckKey(c: Value): (string, string) { (StrOf(c.Get("object_kind")), StrOf(c.Get("config_addr"))) }

  function ObjectKey(o: Value): string { StrOf(o.Get("object_addr")) }

  predicate ObjectShape(o: Value) { o.Obj? && NonBlank(o.Get("object_addr")) }

  predicate ObjectsOk(items: seq<Value>)
  {
    (forall o :: o in items ==> ObjectShape(o)) && Distinct(MapSeq(ObjectKey, items))
  }

  predicate CheckHeader(c: Value)
  {
    && c.Obj? && c.Get("object_kind") in {Str("resource"), Str("output"), Str("check"), Str("var")}
    && NonBlank(c.Get("config_addr")) && c.Has("objects")
  }

  predicate CheckOk(c: Value)
  {
    CheckHeader(c) && (c.Get("objects") == Null || (c.Get("objects").Arr? && ObjectsOk(c.Get("objects").items)))
  }

  predicate ChecksListOk(items: seq<Value>)
  {
    (forall c :: c in items ==> CheckOk(c)) && Distinct(MapSeq(CheckKey, items))
  }

  /** canonical_state does not refuse. */
  predicate ChecksOk(state: Value)
  {
    state.Get("check_results") == Null ||
    (state.Get("check_results").Arr? && ChecksListOk(state.Get("check_results").items))
  }

  predicate ObjectLeq(a: Value, b: Value) { Leq(ObjectKey(a), ObjectKey(b)) }

  predicate CheckLeq(a: Value, b: Value)
  {
    Less(CheckKey(a).0, CheckKey(b).0) || (CheckKey(a).0 == CheckKey(b).0 && Leq(CheckKey(a).1, CheckKey(b).1))
  }

  function SortedObjects(v: Value): Value { if v.Arr? then Arr(Sort(v.items, ObjectLeq)) else v }

  function SortObjects(c: Value): Value { UpdateAt(c, "objects", SortedObjects) }

  function SortedChecks(v: Value): Value { if v.Arr? then Arr(Sort(MapSeq(SortObjects, v.items), CheckLeq)) else v }

  /** canonical_state, for a state that it does not refuse. */
  function CanonicalState(state: Value): Value { UpdateAt(state, "check_results", SortedChecks) }

  // ----- equal up to the order of check results and of their objects -----

  ghost predicate ObjectsEq(a: Value, b: Value)
  {
    a == b || (a.Arr? && b.Arr? && multiset(a.items) == multiset(b.items))
  }

  ghost predicate CheckEq(c: Value, d: Value) { EqAt(c, d, "objects", ObjectsEq) }

  ghost predicate PairwiseCheckEq(xs: seq<Value>, ys: seq<Value>)
  {
    |xs| == |ys| && forall i :: 0 <= i < |xs| ==> CheckEq(xs[i], ys[i])
  }

  ghost predicate ChecksEq(a: Value, b: Value)
  {
    a == b ||
    (a.Arr? && b.Arr? && exists zs :: multiset(zs) == multiset(b.items) && PairwiseCheckEq(a.items, zs))
  }

  /** Equal states, up to the order of check results and of each check's objects. */
  ghost predicate SameState(a: Value, b: Value) { EqAt(a, b, "check_results", ChecksEq) }

  lemma ObjectLeqIsTotal()
    ensures TotalPreorder(ObjectLeq)
  {
    forall x: Value, y: Value ensures ObjectLeq(x, y) || ObjectLeq(y, x) { LeqTotal(ObjectKey(x), ObjectKey(y)); }
    forall x: Value, y: Value, z: Value | ObjectLeq(x, y) && ObjectLeq(y, z) ensures ObjectLeq(x, z) {
      LeqTransitive(ObjectKey(x), ObjectKey(y), ObjectKey(z));
    }
  }

  lemma LessTransitive(a: string, b: string, c: string)
    requires Less(a, b) && Less(b, c)
    ensures Less(a, c)
  {
    LeqTransitive(a, b, c);
    if a == c { LeqAntisymmetric(a, b); }
  }

  lemma CheckLeqIsTotal()
    ensures TotalPreorder(CheckLeq)
  {
    hide CheckKey, Leq;
    forall x: Value, y: Value ensures CheckLeq(x, y) || CheckLeq(y, x) {
      LeqTotal(CheckKey(x).0, CheckKey(y).0);
      LeqTotal(CheckKey(x).1, CheckKey(y).1);
    }
    forall x: Value, y: Value, z: Value | CheckLeq(x, y) && CheckLeq(y, z) ensures CheckLeq(x, z) {
      var (k, l, m) := (CheckKey(x), CheckKey(y), CheckKey(z));
      if k.0 == l.0 == m.0 {
        LeqTransitive(k.1, l.1, m.1);
      } else if k.0 != l.0 && l.0 != m.0 {
        LessTransitive(k.0, l.0, m.0);
      }
    }
  }

  lemma ObjectsStrict(items: seq<Value>)
    requires ObjectsOk(items)
    ensures Strict(items, ObjectLeq)
  {
    forall x, y | x in items && y in items && ObjectLeq(x, y) && ObjectLeq(y, x) ensures x == y {
      LeqAntisymmetric(ObjectKey(x), ObjectKey(y));
      var i :| 0 <= i < |items| && items[i] == x;
      var j :| 0 <= j < |items| && items[j] == y;
      var keys := MapSeq(ObjectKey, items);
      assert keys[i] == keys[j];
    }
  }

  /** Sorting the objects identifies exactly the checks that differ in the order of their objects. */
  lemma SortObjectsIff(c: Value, d: Value)
    requires CheckOk(c) && CheckOk(d)
    ensures SortObjects(c) == SortObjects(d) <==> CheckEq(c, d)
  {
    var x, y := c.Get("objects"), d.Get("objects");
    if x.Arr? && y.Arr? {
      ObjectLeqIsTotal();
      ObjectsStrict(x.items);
      SortCanonical(x.items, y.items, ObjectLeq);
    }
    hide ObjectsOk, CheckHeader, Sort;
    UpdateAtIff(c, d, "objects", SortedObjects, ObjectsEq);
  }

  lemma SortObjectsKeepsKey(c: Value)
    ensures CheckKey(SortObjects(c)) == CheckKey(c)
  {
    hide SortedObjects;
  }

  lemma SortedChecksStrict(items: seq<Value>)
    requires ChecksListOk(items)
    ensures Strict(MapSeq(SortObjects, items), CheckLeq)
  {
    var sorted := MapSeq(SortObjects, items);
    forall x, y | x in sorted && y in sorted && CheckLeq(x, y) && CheckLeq(y, x) ensures x == y {
      var i :| 0 <= i < |items| && x == SortObjects(items[i]);
      var j :| 0 <= j < |items| && y == SortObjects(items[j]);
      SortObjectsKeepsKey(items[i]);
      SortObjectsKeepsKey(items[j]);
      KeysTie(x, y);
      var keys := MapSeq(CheckKey, items);
      assert keys[i] == keys[j];
    }
  }

  lemma KeysTie(x: Value, y: Value)
    requires CheckLeq(x, y) && CheckLeq(y, x)
    ensures CheckKey(x) == CheckKey(y)
  {
    hide CheckKey;
    if CheckKey(x).0 != CheckKey(y).0 {
      LeqAntisymmetric(CheckKey(x).0, CheckKey(y).0);
    } else {
      LeqAntisymmetric(CheckKey(x).1, CheckKey(y).1);
    }
  }

  lemma PairwiseIff(xs: seq<Value>, ys: seq<Value>)
    requires |xs| == |ys| && forall c :: c in xs || c in ys ==> CheckOk(c)
    ensures PairwiseCheckEq(xs, ys) <==> forall i :: 0 <= i < |xs| ==> SortObjects(xs[i]) == SortObjects(ys[i])
  {
    hide CheckOk, SortObjects, CheckEq;
    forall i | 0 <= i < |xs| ensures CheckEq(xs[i], ys[i]) <==> SortObjects(xs[i]) == SortObjects(ys[i]) {
      SortObjectsIff(xs[i], ys[i]);
    }
  }

  lemma SortedChecksIff(a: Value, b: Value)
    requires a.Arr? && b.Arr? && ChecksListOk(a.items) && ChecksListOk(b.items)
    ensures SortedChecks(a) == SortedChecks(b) <==> ChecksEq(a, b)
  {
    var xs, ys := a.items, b.items;
    CheckLeqIsTotal();
    SortedChecksStrict(xs);
    SortCanonical(MapSeq(SortObjects, xs), MapSeq(SortObjects, ys), CheckLeq);
    MatchesIffSameNormalForms(SortObjects, xs, ys);
    hide Sort, SortObjects, CheckOk, ChecksListOk, PairwiseCheckEq, MapSeq, CheckLeq, TotalPreorder, Strict, Aligned, Matches, ChecksEq;
    AlignedIsPairwise(xs, ys);
    SortedChecksCases(a, b);
  }

  lemma AlignedIsPairwise(xs: seq<Value>, ys: seq<Value>)
    requires ChecksListOk(xs) && ChecksListOk(ys)
    ensures forall zs :: multiset(zs) == multiset(ys) && |zs| == |xs| ==>
              (Aligned(SortObjects, xs, ys, zs) <==> PairwiseCheckEq(xs, zs))
  {
    hide SortObjects, CheckOk, PairwiseCheckEq;
    forall zs | multiset(zs) == multiset(ys) && |zs| == |xs| ensures Aligned(SortObjects, xs, ys, zs) <==> PairwiseCheckEq(xs, zs) {
      SameMembers(zs, ys);
      PairwiseIff(xs, zs);
    }
  }

  lemma SortedChecksCases(a: Value, b: Value)
    requires a.Arr? && b.Arr?
    requires SortedChecks(a) == SortedChecks(b) <==> Matches(SortObjects, a.items, b.items)
    requires forall zs :: multiset(zs) == multiset(b.items) && |zs| == |a.items| ==>
               (Aligned(SortObjects, a.items, b.items, zs) <==> PairwiseCheckEq(a.items, zs))
    ensures SortedChecks(a) == SortedChecks(b) <==> ChecksEq(a, b)
  {
    hide SortedChecks, SortObjects, CheckEq;
    if ChecksEq(a, b) && a != b {
      var zs :| multiset(zs) == multiset(b.items) && PairwiseCheckEq(a.items, zs);
      assert Aligned(SortObjects, a.items, b.items, zs);
    }
    if Matches(SortObjects, a.items, b.items) {
      var zs :| Aligned(SortObjects, a.items, b.items, zs);
    }
  }

  /** The canonical states agree exactly when the states agree up to order. */
  lemma CanonicalIff(a: Value, b: Value)
    requires ChecksOk(a) && ChecksOk(b)
    ensures CanonicalState(a) == CanonicalState(b) <==> SameState(a, b)
  {
    var x, y := a.Get("check_results"), b.Get("check_results");
    if x.Arr? && y.Arr? { SortedChecksIff(x, y); }
    hide SortedChecks, ChecksListOk;
    if a.Has("check_results") && b.Has("check_results") {
      assert SortedChecks(x) == SortedChecks(y) <==> ChecksEq(x, y) by {
        if !x.Arr? || !y.Arr? { SortedChecksKind(x); SortedChecksKind(y); }
      }
    }
    hide ChecksEq;
    UpdateAtIff(a, b, "check_results", SortedChecks, ChecksEq);
  }

  lemma SortedChecksKind(v: Value)
    ensures SortedChecks(v).Arr? <==> v.Arr?
    ensures !v.Arr? ==> SortedChecks(v) == v
  {
  }

  // ----- removing or setting the target's status -----

  /** item.pop("status"). */
  function PopStatus(item: Value): Value { if item.Obj? then Obj(item.fields - {"status"}) else item }

  function SetReady(item: Value): Value { if item.Obj? then Obj(item.fields["status" := Str("ready")]) else item }

  function WithInstance(r: Value, item: Value): Value
    requires r.Obj?
  {
    Obj(r.fields["instances" := Arr([item])])
  }

  predicate HasTarget(state: Value) { InstanceAt(state, SecretType, TargetName).Some? }

  function TargetAt(state: Value): nat
    requires HasTarget(state)
  {
    InstanceAt(state, SecretType, TargetName).value
  }

  function Target(state: Value): Value
    requires HasTarget(state)
  {
    Instance(state, SecretType, TargetName)
  }

  /** The state with its target instance changed by f. */
  function WithTarget(state: Value, f: Value -> Value): Value
    requires HasTarget(state)
  {
    var p := TargetAt(state);
    var r := Resources(state)[p];
    Obj(state.fields["resources" := Arr(Resources(state)[p := WithInstance(r, f(InstanceIn(r)))])])
  }

  function WithSerial(state: Value, n: nat): Value
    requires state.Obj?
  {
    Obj(state.fields["serial" := Num(Decimal(n))])
  }

  lemma ResourcesAreField(state: Value)
    requires HasTarget(state)
    ensures state.Obj? && "resources" in state.fields && state.fields["resources"] == Arr(Resources(state))
  {
  }

  lemma WithSerialKeeps(state: Value, n: nat)
    requires state.Obj?
    ensures var s := WithSerial(state, n);
            && s.Get("version") == state.Get("version") && s.Get("lineage") == state.Get("lineage")
            && s.Get("resources") == state.Get("resources") && s.Get("check_results") == state.Get("check_results")
    ensures IsNat(WithSerial(state, n).Get("serial"), n)
  {
  }

  /** f changes at most the status. */
  ghost predicate StatusOnly(f: Value -> Value)
  {
    forall item: Value :: item.Obj? ==> StatusOnlyAt(item, f(item))
  }

  ghost predicate StatusOnlyAt(item: Value, changed: Value)
  {
    changed.Obj? && forall k :: k != "status" ==> changed.Has(k) == item.Has(k) && changed.Get(k) == item.Get(k)
  }

  lemma StatusChanges()
    ensures StatusOnly(PopStatus) && StatusOnly(SetReady)
  {
    forall item: Value | item.Obj? ensures StatusOnlyAt(item, PopStatus(item)) { }
    forall item: Value | item.Obj? ensures StatusOnlyAt(item, SetReady(item)) { }
  }

  // ----- what the identity check depends on -----

  lemma SamePositions(rs: seq<Value>, ts: seq<Value>, kind: string, name: string)
    requires |rs| == |ts| && forall p :: 0 <= p < |rs| ==> IsNamed(rs[p], kind, name) == IsNamed(ts[p], kind, name)
    ensures Positions(rs, kind, name) == Positions(ts, kind, name)
  {
  }

  lemma InstanceByResources(x: Value, y: Value, kind: string, name: string)
    requires x.Get("resources") == y.Get("resources")
    ensures InstanceAt(x, kind, name) == InstanceAt(y, kind, name)
    ensures InstanceAt(x, kind, name).Some? ==> Instance(x, kind, name) == Instance(y, kind, name)
    ensures NoInstance(x, kind, name) == NoInstance(y, kind, name)
  {
  }

  lemma SurroundingsByFields(x: Value, y: Value)
    requires x.Obj? && y.Obj?
    requires x.Get("version") == y.Get("version") && x.Get("lineage") == y.Get("lineage") && x.Get("resources") == y.Get("resources")
    ensures Surroundings(x) == Surroundings(y)
    ensures HasTarget(x) == HasTarget(y)
    ensures HasTarget(x) ==> TargetAt(x) == TargetAt(y) && Target(x) == Target(y)
  {
    hide InstanceAt, Instance, NoInstance, TargetAttributes, LegacySecret, LegacyVersion, ValidLineage;
    InstanceByResources(x, y, SecretType, TargetName);
    InstanceByResources(x, y, VersionType, TargetName);
    InstanceByResources(x, y, SecretType, "runtime");
    InstanceByResources(x, y, VersionType, "runtime");
    InstanceByResources(x, y, SecretType, "legacy_runtime");
    InstanceByResources(x, y, VersionType, "legacy_runtime");
  }

  /** Changing the target's status moves no instance and leaves the other instances as they are. */
  lemma InstanceAfterChange(x: Value, f: Value -> Value, kind: string, name: string)
    requires HasTarget(x) && StatusOnly(f)
    ensures InstanceAt(WithTarget(x, f), kind, name) == InstanceAt(x, kind, name)
    ensures NoInstance(WithTarget(x, f), kind, name) == NoInstance(x, kind, name)
    ensures InstanceAt(x, kind, name).Some? ==>
              Instance(WithTarget(x, f), kind, name)
              == (if InstanceAt(x, kind, name) == Some(TargetAt(x)) then f(Target(x)) else Instance(x, kind, name))
  {
    var rs, p := Resources(x), TargetAt(x);
    var changed := WithInstance(rs[p], f(Target(x)));
    ChangedResource(rs[p], f);
    ResourcesAfterChange(x, f);
    InstanceAfterReplacing(x, WithTarget(x, f), p, changed, kind, name);
  }

  lemma ResourcesAfterChange(x: Value, f: Value -> Value)
    requires HasTarget(x)
    ensures AllObjects(x.Get("resources")) && AllObjects(WithTarget(x, f).Get("resources"))
    ensures Resources(WithTarget(x, f)) == Resources(x)[TargetAt(x) := WithInstance(Resources(x)[TargetAt(x)], f(Target(x)))]
  {
    ResourcesAreField(x);
  }

  lemma InstanceAfterReplacing(x: Value, y: Value, p: nat, changed: Value, kind: string, name: string)
    requires AllObjects(x.Get("resources")) && AllObjects(y.Get("resources"))
    requires p < |Resources(x)| && Resources(y) == Resources(x)[p := changed]
    requires ManagedSingle(Resources(x)[p]) && ManagedSingle(changed)
    requires IsNamed(changed, kind, name) == IsNamed(Resources(x)[p], kind, name)
    ensures InstanceAt(y, kind, name) == InstanceAt(x, kind, name)
    ensures NoInstance(y, kind, name) == NoInstance(x, kind, name)
    ensures InstanceAt(x, kind, name).Some? ==>
              Instance(y, kind, name)
              == (if InstanceAt(x, kind, name) == Some(p) then InstanceIn(changed) else Instance(x, kind, name))
  {
    hide ManagedSingle, IsNamed;
    SamePositions(Resources(x), Resources(y), kind, name);
  }

  lemma ChangedResource(r: Value, f: Value -> Value)
    requires ManagedSingle(r) && StatusOnly(f)
    ensures ManagedSingle(WithInstance(r, f(InstanceIn(r))))
    ensures InstanceIn(WithInstance(r, f(InstanceIn(r)))) == f(InstanceIn(r))
    ensures WithInstance(r, f(InstanceIn(r))).Get("type") == r.Get("type")
    ensures WithInstance(r, f(InstanceIn(r))).Get("name") == r.Get("name")
  {
    hide StatusOnlyAt, StatusOnly, WithInstance, Value.Get, Value.Has;
    KeptByStatus(InstanceIn(r), f);
    WithInstanceFields(r, f(InstanceIn(r)));
  }

  lemma KeptByStatus(item: Value, f: Value -> Value)
    requires item.Obj? && StatusOnly(f)
    ensures var changed := f(item);
            changed.Obj? && changed.Has("index_key") == item.Has("index_key") && changed.Has("deposed") == item.Has("deposed")
            && changed.Get("attributes") == item.Get("attributes")
  {
    assert StatusOnlyAt(item, f(item));
    hide Value.Get, Value.Has, StatusOnly, StatusOnlyAt;
    KeptByLength(item, f(item), "index_key");
    KeptByLength(item, f(item), "deposed");
    KeptByLength(item, f(item), "attributes");
  }

  lemma KeptByLength(item: Value, changed: Value, key: string)
    requires StatusOnlyAt(item, changed) && |key| != 6
    ensures changed.Obj? && changed.Has(key) == item.Has(key) && changed.Get(key) == item.Get(key)
  {
    hide Value.Get, Value.Has;
    assert |"status"| == 6;
  }

  lemma WithInstanceFields(r: Value, item: Value)
    requires r.Obj?
    ensures var w := WithInstance(r, item);
            && w.Obj? && w.Get("instances") == Arr([item]) && w.Get("type") == r.Get("type") && w.Get("name") == r.Get("name")
            && w.Get("mode") == r.Get("mode") && w.Get("module") == r.Get("module")
  {
  }

  /** Everything the identity check reads about instances is the same in x and y. */
  ghost predicate SameInstances(x: Value, y: Value)
  {
    && NoInstance(x, VersionType, TargetName) == NoInstance(y, VersionType, TargetName)
    && NoInstance(x, SecretType, "runtime") == NoInstance(y, SecretType, "runtime")
    && NoInstance(x, VersionType, "runtime") == NoInstance(y, VersionType, "runtime")
    && HasTarget(x) && HasTarget(y) && Target(x).Get("attributes") == Target(y).Get("attributes")
    && SameInstance(x, y, SecretType) && SameInstance(x, y, VersionType)
  }

  ghost predicate SameInstance(x: Value, y: Value, kind: string)
  {
    && InstanceAt(x, kind, "legacy_runtime").Some? && InstanceAt(y, kind, "legacy_runtime").Some?
    && Instance(x, kind, "legacy_runtime") == Instance(y, kind, "legacy_runtime")
  }

  lemma SurroundingsTransfer(x: Value, y: Value)
    requires Surroundings(x) && y.Obj? && SameInstances(x, y)
    requires y.Get("version") == x.Get("version") && y.Get("lineage") == x.Get("lineage")
    ensures Surroundings(y)
  {
    hide InstanceAt, Instance, NoInstance, TargetAttributes, LegacySecret, LegacyVersion, ValidLineage, Value.Get;
  }

  lemma TargetAfterChange(x: Value, f: Value -> Value)
    requires HasTarget(x) && StatusOnly(f)
    ensures HasTarget(WithTarget(x, f)) && TargetAt(WithTarget(x, f)) == TargetAt(x)
    ensures Target(WithTarget(x, f)) == f(Target(x)) && f(Target(x)).Get("attributes") == Target(x).Get("attributes")
  {
    TargetIsObject(x);
    assert StatusOnlyAt(Target(x), f(Target(x)));
    hide InstanceAt, Instance, WithTarget, Value.Get;
    InstanceAfterChange(x, f, SecretType, TargetName);
  }

  lemma LegacyAfterChange(x: Value, f: Value -> Value, kind: string)
    requires HasTarget(x) && StatusOnly(f) && InstanceAt(x, kind, "legacy_runtime").Some?
    ensures SameInstance(x, WithTarget(x, f), kind)
  {
    hide InstanceAt, Instance, WithTarget;
    InstanceAfterChange(x, f, kind, "legacy_runtime");
    DifferentPlaces(x, kind, "legacy_runtime");
  }

  lemma InstancesAfterChange(x: Value, f: Value -> Value)
    requires Surroundings(x) && StatusOnly(f)
    ensures SameInstances(x, WithTarget(x, f))
  {
    hide InstanceAt, Instance, NoInstance, TargetAttributes, LegacySecret, LegacyVersion, ValidLineage, WithTarget, Value.Get, SameInstance, StatusOnly;
    InstanceAfterChange(x, f, VersionType, TargetName);
    InstanceAfterChange(x, f, SecretType, "runtime");
    InstanceAfterChange(x, f, VersionType, "runtime");
    TargetAfterChange(x, f);
    LegacyAfterChange(x, f, SecretType);
    LegacyAfterChange(x, f, VersionType);
  }

  lemma SurroundingsAfterChange(x: Value, f: Value -> Value)
    requires Surroundings(x) && StatusOnly(f)
    ensures Surroundings(WithTarget(x, f))
    ensures TargetAt(WithTarget(x, f)) == TargetAt(x) && Target(WithTarget(x, f)) == f(Target(x))
  {
    InstancesAfterChange(x, f);
    TargetAfterChange(x, f);
    OtherFieldKept(x, f, "version");
    OtherFieldKept(x, f, "lineage");
    hide Surroundings, WithTarget, SameInstances, InstanceAt, Instance;
    SurroundingsTransfer(x, WithTarget(x, f));
  }

  lemma TargetIsObject(x: Value)
    requires HasTarget(x)
    ensures Target(x).Obj?
  {
  }

  lemma OtherFieldKept(x: Value, f: Value -> Value, k: string)
    requires HasTarget(x) && k != "resources"
    ensures WithTarget(x, f).Obj? && WithTarget(x, f).Get(k) == x.Get(k)
  {
    ResourcesAreField(x);
  }

  lemma DifferentPlaces(x: Value, kind: string, name: string)
    requires HasTarget(x) && InstanceAt(x, kind, name).Some? && name != TargetName
    ensures InstanceAt(x, kind, name) != Some(TargetAt(x))
  {
  }

  // ----- well-formed check results survive reordering -----

  lemma ObjectsOkReordered(xs: seq<Value>, ys: seq<Value>)
    requires multiset(xs) == multiset(ys) && ObjectsOk(ys)
    ensures ObjectsOk(xs)
  {
    SameMembers(xs, ys);
    MapSeqMultiset(ObjectKey, xs, ys);
    DistinctReordered(MapSeq(ObjectKey, xs), MapSeq(ObjectKey, ys));
  }

  lemma CheckOkSame(c: Value, d: Value)
    requires CheckEq(c, d) && CheckOk(d)
    ensures CheckOk(c) && CheckKey(c) == CheckKey(d)
  {
    if c != d {
      var x, y := c.Get("objects"), d.Get("objects");
      if x.Arr? && y.Arr? { ObjectsOkReordered(x.items, y.items); }
      hide ObjectsOk;
      assert c.Get("object_kind") == d.Get("object_kind") && c.Get("config_addr") == d.Get("config_addr");
    }
  }

  lemma ChecksListOkSame(xs: seq<Value>, ys: seq<Value>, zs: seq<Value>)
    requires multiset(zs) == multiset(ys) && PairwiseCheckEq(xs, zs) && ChecksListOk(ys)
    ensures ChecksListOk(xs)
  {
    SameMembers(zs, ys);
    hide CheckOk, CheckEq, CheckKey;
    forall i | 0 <= i < |xs| ensures CheckOk(xs[i]) && CheckKey(xs[i]) == CheckKey(zs[i]) {
      assert zs[i] in zs;
      CheckOkSame(xs[i], zs[i]);
    }
    assert MapSeq(CheckKey, xs) == MapSeq(CheckKey, zs);
    MapSeqMultiset(CheckKey, zs, ys);
    DistinctReordered(MapSeq(CheckKey, xs), MapSeq(CheckKey, ys));
  }

  lemma SameStateFields(x: Value, y: Value)
    requires SameState(x, y)
    ensures x.Obj? == y.Obj? && forall k :: k != "check_results" ==> x.Get(k) == y.Get(k) && x.Has(k) == y.Has(k)
    ensures ChecksOk(y) ==> ChecksOk(x)
  {
    if x != y {
      var a, b := x.Get("check_results"), y.Get("check_results");
      hide ChecksListOk, PairwiseCheckEq;
      forall k | k != "check_results" ensures x.Get(k) == y.Get(k) && x.Has(k) == y.Has(k) {
        assert k in x.fields <==> k in y.fields;
      }
      if ChecksOk(y) && a != b {
        var zs :| multiset(zs) == multiset(b.items) && PairwiseCheckEq(a.items, zs);
        ChecksListOkSame(a.items, b.items, zs);
      }
    }
  }

  lemma SetFieldEq(x: Value, y: Value, key: string, v: Value, at: string, eq: (Value, Value) -> bool)
    requires EqAt(x, y, at, eq) && x.Obj? && key != at
    ensures y.Obj? && EqAt(Obj(x.fields[key := v]), Obj(y.fields[key := v]), at, eq)
  {
  }

  /** States that are equal up to order stay so when the target of both is changed alike. */
  lemma SameStateAfterChange(x: Value, y: Value, f: Value -> Value)
    requires SameState(x, y) && HasTarget(y)
    ensures HasTarget(x) && SameState(WithTarget(x, f), WithTarget(y, f))
  {
    SameStateFields(x, y);
    InstanceByResources(x, y, SecretType, TargetName);
    ResourcesAreField(y);
    assert x.Get("resources") == y.Get("resources");
    hide Positions, ManagedSingle, ChecksEq, ChecksOk;
    SetFieldEq(x, y, "resources", WithTarget(y, f).fields["resources"], "check_results", ChecksEq);
  }

  // ----- the comparison -----

  /** The state that the guard expects, with its target no longer tainted or marked ready. */
  function Repaired(before: Value, n: nat, mark: Value -> Value): Value
    requires Surroundings(before)
  {
    HasTargetWithSerial(before, n + 1);
    WithTarget(WithSerial(before, n + 1), mark)
  }

  lemma HasTargetWithSerial(x: Value, n: nat)
    requires Surroundings(x)
    ensures Surroundings(WithSerial(x, n)) && Target(WithSerial(x, n)) == Target(x)
  {
    WithSerialKeeps(x, n);
    SurroundingsByFields(x, WithSerial(x, n));
  }

  /** The compared form of the later state. */
  function Actual(after: Value): Value
    requires HasTarget(after)
  {
    if Target(after).Get("status") == Str("ready") then WithTarget(after, PopStatus) else after
  }

  /** The last step of compare: both canonical forms exist and print alike. */
  predicate ComparedEqual(before: Value, after: Value, n: nat)
    requires Surroundings(before) && HasTarget(after)
  {
    var expected, actual := Repaired(before, n, PopStatus), Actual(after);
    && ChecksOk(actual) && ChecksOk(expected)
    && Print(CanonicalState(actual)) == Print(CanonicalState(expected))
  }

  /** compare(before, after) returns without refusing. */
  predicate Accepts(before: Value, after: Value)
  {
    && StateIdentity(before, true).Some?
    && StateIdentity(after, false) == Some(StateIdentity(before, true).value + 1)
    && ComparedEqual(before, after, StateIdentity(before, true).value)
  }

  /** What the guard is for: nothing changed except the serial and the target's taint mark. */
  ghost predicate OnlyUntainted(before: Value, after: Value)
  {
    && StateIdentity(before, true).Some? && ChecksOk(before)
    && var n := StateIdentity(before, true).value;
       SameState(after, Repaired(before, n, PopStatus)) || SameState(after, Repaired(before, n, SetReady))
  }

  lemma RepairedTarget(before: Value, n: nat, mark: Value -> Value)
    requires Surroundings(before) && StatusOnly(mark)
    ensures Surroundings(Repaired(before, n, mark)) && Target(Repaired(before, n, mark)) == mark(Target(before))
  {
    HasTargetWithSerial(before, n + 1);
    hide Surroundings, WithTarget, WithSerial, InstanceAt, Instance, StatusOnly;
    SurroundingsAfterChange(WithSerial(before, n + 1), mark);
  }

  lemma RepairedFields(before: Value, n: nat, mark: Value -> Value)
    requires before.Obj? && Surroundings(before)
    ensures IsNat(Repaired(before, n, mark).Get("serial"), n + 1)
    ensures Repaired(before, n, mark).Get("check_results") == before.Get("check_results")
  {
    var s := WithSerial(before, n + 1);
    HasTargetWithSerial(before, n + 1);
    hide Surroundings, InstanceAt, Instance, WithTarget, WithSerial, Value.Get;
    WithSerialKeeps(before, n + 1);
    OtherFieldKept(s, mark, "serial");
    OtherFieldKept(s, mark, "check_results");
  }

  lemma ChecksOkByField(x: Value, y: Value)
    requires x.Get("check_results") == y.Get("check_results")
    ensures ChecksOk(x) == ChecksOk(y)
  {
  }

  lemma StatusAlgebra(item: Value)
    requires item.Obj?
    ensures PopStatus(SetReady(item)) == PopStatus(item) && SetReady(PopStatus(item)) == SetReady(item)
    ensures PopStatus(item).Get("status") == Null && SetReady(item).Get("status") == Str("ready")
    ensures item.Get("status") == Str("ready") ==> SetReady(item) == item
    ensures item.Get("status") == Null && !item.Has("status") ==> PopStatus(item) == item
  {
  }

  /** Changing the target twice is changing it once by the composition. */
  lemma ChangeTwice(x: Value, f: Value -> Value, g: Value -> Value, h: Value -> Value)
    requires HasTarget(x) && StatusOnly(f) && g(f(Target(x))) == h(Target(x))
    ensures HasTarget(WithTarget(x, f)) && WithTarget(WithTarget(x, f), g) == WithTarget(x, h)
  {
    var y, p := WithTarget(x, f), TargetAt(x);
    var rs, r, a := Resources(x), Resources(x)[TargetAt(x)], f(Target(x));
    ChangedResource(r, f);
    hide Surroundings, InstanceAt, ManagedSingle, Positions, StatusOnly;
    TargetAfterChange(x, f);
    ResourcesAfterChange(x, f);
    ResourcesAreField(x);
    assert Resources(y)[p] == WithInstance(r, a) && InstanceIn(WithInstance(r, a)) == a;
    hide WithInstance, Resources;
    ReplaceTwice(x.fields, rs, p, r, a, h(Target(x)));
  }

  lemma ReplaceTwice(fields: map<string, Value>, rs: seq<Value>, p: nat, r: Value, a: Value, b: Value)
    requires p < |rs| && r.Obj?
    ensures var once := rs[p := WithInstance(r, a)];
            fields["resources" := Arr(once)]["resources" := Arr(once[p := WithInstance(WithInstance(r, a), b)])]
            == fields["resources" := Arr(rs[p := WithInstance(r, b)])]
  {
    SetTwice(r.fields, "instances", Arr([a]), Arr([b]));
    var once := rs[p := WithInstance(r, a)];
    assert once[p := WithInstance(r, b)] == rs[p := WithInstance(r, b)];
    SetTwice(fields, "resources", Arr(once), Arr(rs[p := WithInstance(r, b)]));
  }

  lemma SetTwice<K, V>(m: map<K, V>, k: K, v: V, w: V)
    ensures m[k := v][k := w] == m[k := w]
  {
  }

  // ----- the guard accepts exactly the intended repairs -----

  lemma IdentityFacts(state: Value, tainted: bool)
    requires StateIdentity(state, tainted).Some?
    ensures Surroundings(state) && Target(state).Obj?
    ensures tainted ==> Target(state).Get("status") == Str("tainted")
    ensures !tainted ==> Untainted(Target(state).Get("status"))
  {
    TargetIsObject(state);
    hide Surroundings, InstanceAt, NatOf;
  }

  /** Equal up to order, and so compared equal. */
  lemma PrintedEqual(a: Value, b: Value)
    requires WellFormed(a) && WellFormed(b) && ChecksOk(a) && ChecksOk(b)
    ensures Print(CanonicalState(a)) == Print(CanonicalState(b)) <==> SameState(a, b)
  {
    CanonicalWellFormed(a);
    CanonicalWellFormed(b);
    hide WellFormed, Print, CanonicalState, SameState, ChecksOk;
    PrintInjective(CanonicalState(a), CanonicalState(b));
    CanonicalIff(a, b);
  }

  lemma SortObjectsWellFormed(c: Value)
    requires WellFormed(c)
    ensures WellFormed(SortObjects(c))
  {
    WellFormedGet(c, "objects");
    var v := c.Get("objects");
    if v.Arr? { SameMembers(Sort(v.items, ObjectLeq), v.items); }
    assert WellFormed(SortedObjects(v));
    hide SortedObjects;
    UpdateAtWellFormed(c, "objects", SortedObjects);
  }

  lemma CanonicalWellFormed(a: Value)
    requires WellFormed(a)
    ensures WellFormed(CanonicalState(a))
  {
    WellFormedGet(a, "check_results");
    var v := a.Get("check_results");
    if v.Arr? {
      var sorted := MapSeq(SortObjects, v.items);
      forall c | c in sorted ensures WellFormed(c) {
        var i :| 0 <= i < |sorted| && c == SortObjects(v.items[i]);
        SortObjectsWellFormed(v.items[i]);
      }
      SameMembers(Sort(sorted, CheckLeq), sorted);
    }
    assert WellFormed(SortedChecks(v));
    hide SortedChecks;
    UpdateAtWellFormed(a, "check_results", SortedChecks);
  }

  lemma WithTargetWellFormed(x: Value, f: Value -> Value)
    requires HasTarget(x) && WellFormed(x) && WellFormed(f(Target(x)))
    ensures WellFormed(WithTarget(x, f))
  {
    ResourcesAreField(x);
    var p, rs := TargetAt(x), Resources(x);
    assert WellFormed(x.fields["resources"]);
    assert WellFormed(rs[p]);
    var r := WithInstance(rs[p], f(Target(x)));
    assert WellFormed(Arr([f(Target(x))]));
    assert WellFormed(r);
    assert WellFormed(Arr(rs[p := r]));
  }

  lemma TargetWellFormed(x: Value)
    requires HasTarget(x) && WellFormed(x)
    ensures WellFormed(Target(x)) && WellFormed(PopStatus(Target(x))) && WellFormed(SetReady(Target(x)))
  {
    ResourcesAreField(x);
    assert WellFormed(x.fields["resources"]);
    assert WellFormed(Resources(x)[TargetAt(x)]);
    WellFormedGet(Resources(x)[TargetAt(x)], "instances");
  }

  lemma SameStateChecksOk(x: Value, y: Value)
    requires SameState(x, y) && ChecksOk(y)
    ensures ChecksOk(x)
  {
    SameStateFields(x, y);
  }

  lemma SameStateGet(x: Value, y: Value, k: string)
    requires SameState(x, y) && k != "check_results"
    ensures x.Get(k) == y.Get(k) && x.Obj? == y.Obj?
  {
    SameStateFields(x, y);
  }

  lemma ExpectedFromRepaired(before: Value, n: nat, f: Value -> Value, g: Value -> Value)
    requires Surroundings(before) && StatusOnly(f) && g(f(Target(before))) == g(Target(before))
    ensures HasTarget(Repaired(before, n, f)) && WithTarget(Repaired(before, n, f), g) == Repaired(before, n, g)
  {
    HasTargetWithSerial(before, n + 1);
    hide Surroundings, InstanceAt, Instance, WithTarget, WithSerial, StatusOnly;
    ChangeTwice(WithSerial(before, n + 1), f, g, g);
  }

  lemma WithTargetSame(x: Value, f: Value -> Value)
    requires HasTarget(x) && f(Target(x)) == Target(x)
    ensures WithTarget(x, f) == x
  {
    ResourcesAreField(x);
    var p, rs := TargetAt(x), Resources(x);
    var r := rs[p];
    assert r.fields["instances"] == Arr([Target(x)]);
    SameEntry(r.fields, "instances");
    assert rs[p := r] == rs;
    SameEntry(x.fields, "resources");
  }

  lemma SameEntry<K, V>(m: map<K, V>, k: K)
    requires k in m
    ensures m[k := m[k]] == m
  {
  }

  /** The later state, with a ready mark taken off, and the expectation. */
  lemma ReadyState(after: Value)
    requires HasTarget(after) && Target(after).Get("status") == Str("ready")
    ensures HasTarget(WithTarget(after, PopStatus)) && WithTarget(WithTarget(after, PopStatus), SetReady) == after
  {
    TargetIsObject(after);
    StatusAlgebra(Target(after));
    StatusChanges();
    hide InstanceAt, Instance, WithTarget, StatusOnly, PopStatus, SetReady;
    ChangeTwice(after, PopStatus, SetReady, SetReady);
    WithTargetSame(after, SetReady);
  }

  lemma ActualWellFormed(x: Value)
    requires HasTarget(x) && WellFormed(x)
    ensures WellFormed(Actual(x))
  {
    TargetWellFormed(x);
    hide InstanceAt, Instance, WithTarget, PopStatus;
    WithTargetWellFormed(x, PopStatus);
  }

  lemma WithSerialWellFormed(x: Value, n: nat)
    requires x.Obj? && WellFormed(x)
    ensures WellFormed(WithSerial(x, n))
  {
    assert NumberLexeme(Decimal(n));
  }

  lemma ExpectedWellFormed(before: Value, n: nat)
    requires Surroundings(before) && WellFormed(before)
    ensures WellFormed(Repaired(before, n, PopStatus))
  {
    HasTargetWithSerial(before, n + 1);
    WithSerialWellFormed(before, n + 1);
    hide Surroundings, InstanceAt, Instance, WithTarget, WithSerial, PopStatus, SetReady, WellFormed;
    TargetWellFormed(WithSerial(before, n + 1));
    WithTargetWellFormed(WithSerial(before, n + 1), PopStatus);
  }

  lemma ComparedFacts(before: Value, after: Value, n: nat)
    requires WellFormed(before) && WellFormed(after) && Surroundings(before) && HasTarget(after) && before.Obj?
    requires ComparedEqual(before, after, n)
    ensures ChecksOk(before) && SameState(Actual(after), Repaired(before, n, PopStatus))
  {
    hide Surroundings, InstanceAt, Instance, Repaired, WellFormed, ChecksOk, CanonicalState, SameState, PopStatus, SetReady, Print, Actual;
    ActualWellFormed(after);
    ExpectedWellFormed(before, n);
    PrintedEqual(Actual(after), Repaired(before, n, PopStatus));
    RepairedFields(before, n, PopStatus);
    ChecksOkByField(Repaired(before, n, PopStatus), before);
  }

  /** Putting the ready mark back on both sides. */
  lemma MarkedAgain(before: Value, after: Value, n: nat)
    requires Surroundings(before) && HasTarget(before) && HasTarget(after) && Target(before).Obj?
    requires Target(after).Get("status") == Str("ready") && SameState(WithTarget(after, PopStatus), Repaired(before, n, PopStatus))
    ensures SameState(after, Repaired(before, n, SetReady))
  {
    StatusAlgebra(Target(before));
    StatusChanges();
    hide Surroundings, InstanceAt, Instance, WithTarget, Repaired, SameState, StatusOnly, PopStatus, SetReady, Value.Get;
    ExpectedFromRepaired(before, n, PopStatus, SetReady);
    ReadyState(after);
    SameStateAfterChange(WithTarget(after, PopStatus), Repaired(before, n, PopStatus), SetReady);
  }

  lemma ComparedSound(before: Value, after: Value, n: nat)
    requires WellFormed(before) && WellFormed(after) && Surroundings(before) && HasTarget(after)
    requires HasTarget(before) && Target(before).Obj? && before.Obj?
    requires ComparedEqual(before, after, n)
    ensures ChecksOk(before)
    ensures SameState(after, Repaired(before, n, PopStatus)) || SameState(after, Repaired(before, n, SetReady))
  {
    hide Surroundings, InstanceAt, Instance, WithTarget, Repaired, WellFormed, ChecksOk, SameState, PopStatus, SetReady, Value.Get, ComparedEqual;
    ComparedFacts(before, after, n);
    if Target(after).Get("status") == Str("ready") { MarkedAgain(before, after, n); }
  }

  lemma AcceptsSound(before: Value, after: Value)
    requires WellFormed(before) && WellFormed(after) && Accepts(before, after)
    ensures OnlyUntainted(before, after)
  {
    hide Surroundings, InstanceAt, Instance, Repaired, WellFormed, ChecksOk, SameState, StateIdentity, ComparedEqual, IsNat, Value.Get;
    IdentityFacts(before, true);
    IdentityFacts(after, false);
    SurroundingsAreObjects(after);
    SurroundingsAreObjects(before);
    ComparedSound(before, after, StateIdentity(before, true).value);
  }

  /** The later state has the surroundings, target and serial of the repaired one. */
  lemma RepairedSurroundings(before: Value, after: Value, n: nat, mark: Value -> Value)
    requires Surroundings(before) && StatusOnly(mark) && SameState(after, Repaired(before, n, mark))
    ensures Surroundings(after) && Target(after) == mark(Target(before)) && IsNat(after.Get("serial"), n + 1)
  {
    var r := Repaired(before, n, mark);
    hide Surroundings, InstanceAt, Instance, Repaired, SameState, StatusOnly, Value.Get, IsNat;
    RepairedTarget(before, n, mark);
    SurroundingsAreObjects(before);
    RepairedFields(before, n, mark);
    SameStateGet(after, r, "version");
    SameStateGet(after, r, "lineage");
    SameStateGet(after, r, "resources");
    SameStateGet(after, r, "serial");
    SurroundingsAreObjects(r);
    SurroundingsByFields(after, r);
  }

  lemma RepairedIdentity(before: Value, after: Value, n: nat, mark: Value -> Value)
    requires Surroundings(before) && StatusOnly(mark) && Untainted(mark(Target(before)).Get("status"))
    requires SameState(after, Repaired(before, n, mark))
    ensures StateIdentity(after, false) == Some(n + 1)
    ensures HasTarget(after) && Target(after) == mark(Target(before))
  {
    hide Surroundings, InstanceAt, Instance, Repaired, SameState, StatusOnly, Value.Get, IsNat, NatOf;
    RepairedSurroundings(before, after, n, mark);
    SurroundingsAreObjects(after);
    NatOfExact(after.Get("serial"), n + 1);
  }

  lemma SurroundingsAreObjects(x: Value)
    requires Surroundings(x)
    ensures x.Obj? && HasTarget(x)
  {
  }

  lemma ChecksOkAfterChange(x: Value, f: Value -> Value)
    requires HasTarget(x) && ChecksOk(x)
    ensures ChecksOk(WithTarget(x, f))
  {
    hide ChecksOk;
    OtherFieldKept(x, f, "check_results");
    ChecksOkByField(WithTarget(x, f), x);
  }

  /** The check of the expectation always passes for a well-formed earlier state. */
  lemma ExpectationOk(before: Value, n: nat, mark: Value -> Value)
    requires Surroundings(before) && ChecksOk(before)
    ensures ChecksOk(Repaired(before, n, mark))
  {
    SurroundingsAreObjects(before);
    hide Surroundings, Repaired, ChecksOk;
    RepairedFields(before, n, mark);
    ChecksOkByField(Repaired(before, n, mark), before);
  }

  lemma ComparedUnmarked(before: Value, after: Value, n: nat)
    requires WellFormed(before) && WellFormed(after) && Surroundings(before) && HasTarget(after)
    requires Target(after).Get("status") == Null && ChecksOk(before) && SameState(after, Repaired(before, n, PopStatus))
    ensures ComparedEqual(before, after, n)
  {
    hide Surroundings, InstanceAt, Instance, WithTarget, Repaired, WellFormed, ChecksOk, CanonicalState, SameState, PopStatus, SetReady, Print, Value.Get;
    ExpectationOk(before, n, PopStatus);
    SameStateChecksOk(after, Repaired(before, n, PopStatus));
    ExpectedWellFormed(before, n);
    PrintedEqual(after, Repaired(before, n, PopStatus));
  }

  lemma AcceptsUnmarked(before: Value, after: Value, n: nat)
    requires WellFormed(before) && WellFormed(after)
    requires StateIdentity(before, true) == Some(n) && ChecksOk(before) && SameState(after, Repaired(before, n, PopStatus))
    ensures Accepts(before, after)
  {
    hide Surroundings, InstanceAt, Instance, Repaired, WellFormed, ChecksOk, SameState, StateIdentity, ComparedEqual, IsNat, Value.Get, StatusOnly, PopStatus, SetReady;
    IdentityFacts(before, true);
    SurroundingsAreObjects(before);
    StatusAlgebra(Target(before));
    StatusChanges();
    RepairedIdentity(before, after, n, PopStatus);
    ComparedUnmarked(before, after, n);
  }

  /** Taking the ready mark off again leads to the expectation. */
  lemma ReadyActual(before: Value, after: Value, n: nat)
    requires Surroundings(before) && ChecksOk(before) && SameState(after, Repaired(before, n, SetReady))
    requires HasTarget(after) && Target(after) == SetReady(Target(before)) && Target(before).Obj?
    ensures Actual(after) == WithTarget(after, PopStatus) && ChecksOk(Actual(after))
    ensures SameState(Actual(after), Repaired(before, n, PopStatus))
  {
    StatusAlgebra(Target(before));
    StatusChanges();
    hide Surroundings, InstanceAt, Instance, WithTarget, Repaired, ChecksOk, SameState, StatusOnly, PopStatus, SetReady;
    ExpectationOk(before, n, SetReady);
    SameStateChecksOk(after, Repaired(before, n, SetReady));
    ExpectedFromRepaired(before, n, SetReady, PopStatus);
    SameStateAfterChange(after, Repaired(before, n, SetReady), PopStatus);
    ChecksOkAfterChange(after, PopStatus);
  }

  lemma ComparedReady(before: Value, after: Value, n: nat)
    requires WellFormed(before) && WellFormed(after) && Surroundings(before) && HasTarget(after) && Target(before).Obj?
    requires Target(after) == SetReady(Target(before)) && ChecksOk(before) && SameState(after, Repaired(before, n, SetReady))
    ensures ComparedEqual(before, after, n)
  {
    hide Surroundings, InstanceAt, Instance, WithTarget, Repaired, WellFormed, ChecksOk, CanonicalState, SameState, PopStatus, SetReady, Print, Value.Get, Actual;
    ReadyActual(before, after, n);
    ExpectationOk(before, n, PopStatus);
    ExpectedWellFormed(before, n);
    ActualWellFormed(after);
    PrintedEqual(Actual(after), Repaired(before, n, PopStatus));
  }

  lemma AcceptsReady(before: Value, after: Value, n: nat)
    requires WellFormed(before) && WellFormed(after)
    requires StateIdentity(before, true) == Some(n) && ChecksOk(before) && SameState(after, Repaired(before, n, SetReady))
    ensures Accepts(before, after)
  {
    hide Surroundings, InstanceAt, Instance, Repaired, WellFormed, ChecksOk, SameState, StateIdentity, ComparedEqual, IsNat, Value.Get, StatusOnly, PopStatus, SetReady;
    IdentityFacts(before, true);
    SurroundingsAreObjects(before);
    StatusAlgebra(Target(before));
    StatusChanges();
    RepairedIdentity(before, after, n, SetReady);
    ComparedReady(before, after, n);
  }

  /** The main result: the guard accepts exactly the states in which only the taint mark was removed. */
  lemma AcceptsIff(before: Value, after: Value)
    requires WellFormed(before) && WellFormed(after)
    ensures Accepts(before, after) <==> OnlyUntainted(before, after)
  {
    if Accepts(before, after) {
      AcceptsSound(before, after);
    } else if OnlyUntainted(before, after) {
      hide Surroundings, Repaired, WellFormed, ChecksOk, SameState, StateIdentity, Accepts;
      var n := StateIdentity(before, true).value;
      if SameState(after, Repaired(before, n, PopStatus)) {
        AcceptsUnmarked(before, after, n);
      } else {
        AcceptsReady(before, after, n);
      }
    }
  }

  // ----- the script's loops -----

  /** The loop over one check's objects, with its set of addresses seen so far. */
  method ObjectsAreOk(items: seq<Value>) returns (ok: bool)
    ensures ok <==> ObjectsOk(items)
  {
    var seen: set<string> := {};
    for i := 0 to |items|
      invariant forall a :: 0 <= a < i ==> ObjectShape(items[a])
      invariant forall a, b :: 0 <= a < b < i ==> ObjectKey(items[a]) != ObjectKey(items[b])
      invariant forall k :: k in seen <==> exists a :: 0 <= a < i && ObjectKey(items[a]) == k
    {
      if !ObjectShape(items[i]) {
        assert items[i] in items;
        return false;
      }
      if ObjectKey(items[i]) in seen {
        ghost var a :| 0 <= a < i && ObjectKey(items[a]) == ObjectKey(items[i]);
        ghost var keys := MapSeq(ObjectKey, items);
        assert keys[a] == keys[i];
        return false;
      }
      seen := seen + {ObjectKey(items[i])};
    }
    return true;
  }

  /** canonical_state: None where the script refuses. */
  method CanonicalizeState(state: Value) returns (r: Option<Value>)
    requires state.Obj?
    ensures r == if ChecksOk(state) then Some(CanonicalState(state)) else None
  {
    hide ChecksListOk, SortObjects;
    if "check_results" !in state.fields { return Some(state); }
    var results := state.fields["check_results"];
    if results == Null { SameEntry(state.fields, "check_results"); return Some(state); }
    if !results.Arr? { return None; }
    var sorted := CanonicalizeChecks(results.items);
    if sorted == None { return None; }
    return Some(Obj(state.fields["check_results" := Arr(sorted.value)]));
  }

  /** The loop over the checks, with its set of identities seen so far. */
  method CanonicalizeChecks(checks: seq<Value>) returns (r: Option<seq<Value>>)
    ensures r == if ChecksListOk(checks) then Some(Sort(MapSeq(SortObjects, checks), CheckLeq)) else None
  {
    hide CheckOk, CheckKey, SortObjects;
    var sorted := checks;
    var seen: set<(string, string)> := {};
    for i := 0 to |checks|
      invariant |sorted| == |checks|
      invariant forall a :: 0 <= a < i ==> CheckOk(checks[a]) && sorted[a] == SortObjects(checks[a])
      invariant forall a, b :: 0 <= a < b < i ==> CheckKey(checks[a]) != CheckKey(checks[b])
      invariant forall k :: k in seen <==> exists a :: 0 <= a < i && CheckKey(checks[a]) == k
    {
      var check := checks[i];
      if CheckKey(check) in seen {
        ghost var a :| 0 <= a < i && CheckKey(checks[a]) == CheckKey(check);
        ghost var keys := MapSeq(CheckKey, checks);
        assert keys[a] == keys[i];
        return None;
      }
      seen := seen + {CheckKey(check)};
      var one := CanonicalizeCheck(check);
      if one == None {
        assert check in checks;
        return None;
      }
      sorted := sorted[i := one.value];
    }
    assert sorted == MapSeq(SortObjects, checks);
    return Some(Sort(sorted, CheckLeq));
  }

  /** One check: None where the script refuses it, otherwise the check with its objects sorted. */
  method CanonicalizeCheck(check: Value) returns (r: Option<Value>)
    ensures r == if CheckOk(check) then Some(SortObjects(check)) else None
  {
    hide ObjectsOk, NonBlank;
    if !CheckHeader(check) { return None; }
    var objects := check.Get("objects");
    if objects == Null { SameEntry(check.fields, "objects"); return Some(check); }
    if !objects.Arr? { return None; }
    var ok := ObjectsAreOk(objects.items);
    if !ok { return None; }
    return Some(Obj(check.fields["objects" := Arr(Sort(objects.items, ObjectLeq))]));
  }

  /** compare(before, after): true where the script returns, false where it refuses. */
  method Compare(before: Value, after: Value) returns (ok: bool)
    requires WellFormed(before) && WellFormed(after)
    ensures ok <==> OnlyUntainted(before, after)
    ensures ok <==> Accepts(before, after)
  {
    hide Accepts, OnlyUntainted, WellFormed;
    AcceptsIff(before, after);
    ok := CompareSteps(before, after);
  }

  method CompareSteps(before: Value, after: Value) returns (ok: bool)
    ensures ok <==> Accepts(before, after)
  {
    hide Surroundings, InstanceAt, Instance, ComparedEqual, StateIdentity, IsNat, Value.Get;
    var serial := StateIdentity(before, true);
    if serial == None || StateIdentity(after, false) != Some(serial.value + 1) { return false; }
    SurroundingsAreObjects(before);
    SurroundingsAreObjects(after);
    ok := SameCanonicalBytes(before, after, serial.value);
  }

  /** The edited copies of both states, compared in canonical form. */
  method SameCanonicalBytes(before: Value, after: Value, serial: nat) returns (same: bool)
    requires Surroundings(before) && HasTarget(after) && after.Obj? && before.Obj?
    ensures same <==> ComparedEqual(before, after, serial)
  {
    hide Surroundings, InstanceAt, Instance, WithTarget, WithSerial, ChecksOk, CanonicalState, Print, Value.Get;
    HasTargetWithSerial(before, serial + 1);
    SurroundingsAreObjects(WithSerial(before, serial + 1));
    var expected := WithTarget(WithSerial(before, serial + 1), PopStatus);
    var actual := after;
    if Target(actual).Get("status") == Str("ready") {
      actual := WithTarget(actual, PopStatus);
    }
    assert expected == Repaired(before, serial, PopStatus) && actual == Actual(after);
    hide Repaired, Actual;
    WithTargetIsObject(WithSerial(before, serial + 1), PopStatus);
    WithTargetIsObject(after, PopStatus);
    var left := CanonicalizeState(actual);
    var right := CanonicalizeState(expected);
    same := left.Some? && right.Some? && Print(left.value) == Print(right.value);
  }

  lemma WithTargetIsObject(x: Value, f: Value -> Value)
    requires HasTarget(x)
    ensures WithTarget(x, f).Obj?
  {
  }
}