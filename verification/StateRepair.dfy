/** The state repair in terms of the state's own fields: which states pass the identity check, and pairs that are accepted. */
module StateRepair {
  import opened Text
  import opened Sorting
  import opened Json
  import opened StateUntaint

  // ----- the only instance of a resource -----

  predicate Named(r: Value, kind: string, name: string) { r.Get("type") == Str(kind) && r.Get("name") == Str(name) }

  /** Of these resources exactly one has the type and the name; it is managed in the root module and item is its instance. */
  ghost predicate OnlyInstance(rs: seq<Value>, kind: string, name: string, item: Value)
  {
    exists p: nat :: OnlyInstanceAt(rs, kind, name, item, p)
  }

  predicate OnlyInstanceAt(rs: seq<Value>, kind: string, name: string, item: Value, p: nat)
  {
    && p < |rs| && Named(rs[p], kind, name) && (forall q: nat :: q < |rs| && q != p ==> !Named(rs[q], kind, name))
    && rs[p].Get("mode") == Str("managed") && rs[p].Get("module") == Null && rs[p].Get("instances") == Arr([item])
    && item.Obj? && !item.Has("index_key") && !item.Has("deposed") && item.Get("attributes").Obj?
  }

  predicate NoneNamed(rs: seq<Value>, kind: string, name: string) { forall q: nat :: q < |rs| ==> !Named(rs[q], kind, name) }

  predicate Ready(status: Value) { status == Null || status == Str("ready") }

  // ----- the identity check, field by field -----

  /** The instances and texts that the identity check reads. */
  datatype Parts = Parts(
    resources: seq<Value>, target: Value, legacySecret: Value, legacyVersion: Value, arn: string, versionId: string)

  predicate Letters(code: string)
  {
    forall i :: 0 <= i < |code| ==> '0' <= code[i] <= '9' || 'a' <= code[i] <= 'z' || 'A' <= code[i] <= 'Z'
  }

  predicate Header(state: Value, serial: nat)
  {
    && state.Obj? && (state.Get("version") == Num("4") || state.Get("version") == Num("4.0"))
    && state.Get("serial") == Num(Decimal(serial))
    && state.Get("lineage").Str? && |state.Get("lineage").s| == 36
    && forall i :: 0 <= i < 36 ==>
         var c := state.Get("lineage").s[i]; '0' <= c <= '9' || 'a' <= c <= 'f' || 'A' <= c <= 'F' || c == '-'
  }

  predicate TargetFields(attrs: Value)
  {
    && attrs.Get("name") == Str("/mycfc/production/app-runtime-secrets-v2")
    && attrs.Get("id") == Str("arn:aws:secretsmanager:eu-west-1:334960985019:secret:/mycfc/production/app-runtime-secrets-v2-sVoQ2n")
    && attrs.Get("arn") == attrs.Get("id")
    && attrs.Get("description") == Str("MyCFC production web-runtime secrets v2")
    && (attrs.Get("recovery_window_in_days") == Num("30") || attrs.Get("recovery_window_in_days") == Num("30.0"))
    && attrs.Get("force_overwrite_replica_secret") == Bool(false)
    && (attrs.Get("kms_key_id") == Null || attrs.Get("kms_key_id") == Str(""))
    && (attrs.Get("replica") == Null || attrs.Get("replica") == Arr([]))
    && (attrs.Get("name_prefix") == Null || attrs.Get("name_prefix") == Str(""))
  }

  ghost predicate LegacySecretFields(attrs: Value, arn: string)
  {
    var prefix := "arn:aws:secretsmanager:eu-west-1:334960985019:secret:/mycfc/production/app-secrets-";
    && attrs.Get("name") == Str("/mycfc/production/app-secrets")
    && attrs.Get("arn") == Str(arn) && attrs.Get("id") == Str(arn)
    && exists code :: |code| == 6 && Letters(code) && arn == prefix + code
  }

  predicate LegacyVersionFields(attrs: Value, arn: string, versionId: string)
  {
    && attrs.Get("secret_id") == Str(arn) && attrs.Get("version_id") == Str(versionId) && versionId != ""
    && attrs.Get("id") == Str(arn + "|" + versionId)
  }

  /** The resources that must be there, each once. */
  ghost predicate Present(x: Parts)
  {
    && OnlyInstance(x.resources, "aws_secretsmanager_secret", "app_runtime", x.target)
    && OnlyInstance(x.resources, "aws_secretsmanager_secret", "legacy_runtime", x.legacySecret)
    && OnlyInstance(x.resources, "aws_secretsmanager_secret_version", "legacy_runtime", x.legacyVersion)
  }

  /** The resources that must not. */
  predicate Absent(rs: seq<Value>)
  {
    && NoneNamed(rs, "aws_secretsmanager_secret_version", "app_runtime")
    && NoneNamed(rs, "aws_secretsmanager_secret", "runtime") && NoneNamed(rs, "aws_secretsmanager_secret_version", "runtime")
  }

  /** Everything the script requires of one state. */
  ghost predicate Required(state: Value, tainted: bool, serial: nat, x: Parts)
  {
    && Header(state, serial) && state.Get("resources") == Arr(x.resources)
    && (forall i :: 0 <= i < |x.resources| ==> x.resources[i].Obj?)
    && Present(x) && Absent(x.resources)
    && (if tainted then x.target.Get("status") == Str("tainted") else Ready(x.target.Get("status")))
    && TargetFields(x.target.Get("attributes"))
    && Ready(x.legacySecret.Get("status")) && LegacySecretFields(x.legacySecret.Get("attributes"), x.arn)
    && Ready(x.legacyVersion.Get("status")) && LegacyVersionFields(x.legacyVersion.Get("attributes"), x.arn, x.versionId)
  }

  // ----- the two forms agree -----

  lemma {:induction false} PositionsAreDistinct(rs: seq<Value>, kind: string, name: string)
    ensures Distinct(Positions(rs, kind, name))
  {
    if rs != [] {
      var before := Positions(rs[..|rs| - 1], kind, name);
      PositionsAreDistinct(rs[..|rs| - 1], kind, name);
      forall i | 0 <= i < |before| ensures before[i] < |rs| - 1 { assert before[i] in before; }
    }
  }

  lemma OnePosition(rs: seq<Value>, kind: string, name: string, p: nat)
    ensures Positions(rs, kind, name) == [p] <==>
            p < |rs| && Named(rs[p], kind, name) && (forall q: nat :: q < |rs| && q != p ==> !Named(rs[q], kind, name))
  {
    var ps := Positions(rs, kind, name);
    PositionsAreDistinct(rs, kind, name);
    hide Positions, Value.Get;
    if ps == [p] {
      assert p in ps;
      forall q: nat | q < |rs| && q != p ensures !Named(rs[q], kind, name) { assert q !in ps; }
    } else if p < |rs| && Named(rs[p], kind, name) && (forall q: nat :: q < |rs| && q != p ==> !Named(rs[q], kind, name)) {
      assert p in ps;
      assert ps[0] in ps;
      if |ps| > 1 { assert ps[1] in ps; }
    }
  }

  lemma InstanceIff(state: Value, rs: seq<Value>, kind: string, name: string, item: Value)
    requires state.Get("resources") == Arr(rs) && forall i :: 0 <= i < |rs| ==> rs[i].Obj?
    ensures InstanceAt(state, kind, name).Some? && Instance(state, kind, name) == item <==> OnlyInstance(rs, kind, name, item)
  {
    hide Positions, Value.Get, Value.Has;
    if InstanceAt(state, kind, name).Some? && Instance(state, kind, name) == item {
      var p := InstanceAt(state, kind, name).value;
      OnePosition(rs, kind, name, p);
      assert rs[p].Get("instances").items == [item];
      assert OnlyInstanceAt(rs, kind, name, item, p);
    }
    if OnlyInstance(rs, kind, name, item) {
      var p: nat :| OnlyInstanceAt(rs, kind, name, item, p);
      OnePosition(rs, kind, name, p);
    }
  }

  lemma NoInstanceIff(state: Value, rs: seq<Value>, kind: string, name: string)
    requires state.Get("resources") == Arr(rs) && forall i :: 0 <= i < |rs| ==> rs[i].Obj?
    ensures NoInstance(state, kind, name) <==> NoneNamed(rs, kind, name)
  {
    var ps := Positions(rs, kind, name);
    hide Positions, Value.Get;
    if ps != [] { assert ps[0] in ps; }
  }

  lemma TargetFieldsIff(attrs: Value)
    ensures TargetFields(attrs) <==> TargetAttributes(attrs)
  {
    hide Value.Get;
  }

  lemma LegacyArnIff(arn: string)
    ensures LegacyArn(arn) <==>
            exists code :: |code| == 6 && Letters(code)
                           && arn == "arn:aws:secretsmanager:eu-west-1:334960985019:secret:/mycfc/production/app-secrets-" + code
  {
    var prefix := LegacyArnPrefix;
    if LegacyArn(arn) {
      var code := arn[|prefix|..];
      assert arn == prefix + code;
      assert Letters(code);
    }
    forall code | |code| == 6 && Letters(code) && arn == prefix + code ensures LegacyArn(arn) {
      assert arn[..|prefix|] == prefix;
      forall i | |prefix| <= i < |arn| ensures AlphaNumeric(arn[i]) { assert arn[i] == code[i - |prefix|]; }
    }
  }

  lemma LegacySecretIff(item: Value, arn: string)
    ensures LegacySecret(item) && item.Get("attributes").Get("arn") == Str(arn) <==>
            Ready(item.Get("status")) && LegacySecretFields(item.Get("attributes"), arn)
  {
    LegacyArnIff(arn);
    hide LegacyArn, Letters, Value.Get;
  }

  lemma LegacyVersionIff(item: Value, arn: string, versionId: string)
    ensures LegacyVersion(item, arn) && item.Get("attributes").Get("version_id") == Str(versionId) <==>
            Ready(item.Get("status")) && LegacyVersionFields(item.Get("attributes"), arn, versionId)
  {
    hide Value.Get;
  }

  lemma HeaderIff(state: Value, serial: nat)
    ensures Header(state, serial) <==>
            state.Obj? && state.Get("version") in {Num("4"), Num("4.0")} && ValidLineage(state.Get("lineage"))
            && NatOf(state.Get("serial")) == Some(serial)
  {
    if IsNat(state.Get("serial"), serial) { NatOfExact(state.Get("serial"), serial); }
    hide Value.Get, NatOf, Decimal;
  }

  /** The part of the requirements that names the instances. */
  ghost predicate InPlace(state: Value, x: Parts)
  {
    && AllObjects(state.Get("resources")) && Resources(state) == x.resources
    && InstanceAt(state, SecretType, TargetName).Some? && Instance(state, SecretType, TargetName) == x.target
    && InstanceAt(state, SecretType, "legacy_runtime").Some? && Instance(state, SecretType, "legacy_runtime") == x.legacySecret
    && InstanceAt(state, VersionType, "legacy_runtime").Some? && Instance(state, VersionType, "legacy_runtime") == x.legacyVersion
    && NoInstance(state, VersionType, TargetName) && NoInstance(state, SecretType, "runtime") && NoInstance(state, VersionType, "runtime")
  }

  lemma InPlaceIff(state: Value, x: Parts)
    ensures InPlace(state, x) <==>
            && state.Get("resources") == Arr(x.resources) && (forall i :: 0 <= i < |x.resources| ==> x.resources[i].Obj?)
            && Present(x) && Absent(x.resources)
  {
    hide InstanceAt, Instance, NoInstance, OnlyInstance, NoneNamed, Value.Get;
    if state.Get("resources") == Arr(x.resources) && forall i :: 0 <= i < |x.resources| ==> x.resources[i].Obj? {
      InstanceIff(state, x.resources, SecretType, TargetName, x.target);
      InstanceIff(state, x.resources, SecretType, "legacy_runtime", x.legacySecret);
      InstanceIff(state, x.resources, VersionType, "legacy_runtime", x.legacyVersion);
      NoInstanceIff(state, x.resources, VersionType, TargetName);
      NoInstanceIff(state, x.resources, SecretType, "runtime");
      NoInstanceIff(state, x.resources, VersionType, "runtime");
    }
  }

  lemma PassedMeans(state: Value, tainted: bool, serial: nat) returns (x: Parts)
    requires StateIdentity(state, tainted) == Some(serial)
    ensures Required(state, tainted, serial, x)
  {
    hide InstanceAt, Instance, NoInstance, TargetAttributes, LegacySecret, LegacyVersion, Header, NatOf, IsNat, ValidLineage, Value.Get,
      TargetFields, LegacySecretFields, LegacyVersionFields, Present, Absent;
    HeaderIff(state, serial);
    var target, secret := Instance(state, SecretType, TargetName), Instance(state, SecretType, "legacy_runtime");
    var version := Instance(state, VersionType, "legacy_runtime");
    LegacyTexts(secret, version);
    var arn, id := secret.Get("attributes").Get("arn").s, version.Get("attributes").Get("version_id").s;
    x := Parts(Resources(state), target, secret, version, arn, id);
    ObjectsThere(state);
    InPlaceIff(state, x);
    TargetFieldsIff(target.Get("attributes"));
    LegacySecretIff(secret, arn);
    LegacyVersionIff(version, arn, id);
  }

  lemma LegacyTexts(secret: Value, version: Value)
    requires LegacySecret(secret) && LegacyVersion(version, secret.Get("attributes").Get("arn").s)
    ensures secret.Get("attributes").Get("arn").Str? && version.Get("attributes").Get("version_id").Str?
  {
    hide Value.Get, LegacyArn;
  }

  lemma ObjectsThere(state: Value)
    requires InstanceAt(state, SecretType, TargetName).Some?
    ensures AllObjects(state.Get("resources"))
  {
    hide Value.Get, Positions, ManagedSingle;
  }

  lemma RequiredPasses(state: Value, tainted: bool, serial: nat, x: Parts)
    requires Required(state, tainted, serial, x)
    ensures StateIdentity(state, tainted) == Some(serial)
  {
    hide InstanceAt, Instance, NoInstance, TargetAttributes, LegacySecret, LegacyVersion, Header, NatOf, IsNat, ValidLineage, Value.Get,
      TargetFields, LegacySecretFields, LegacyVersionFields, Present, Absent;
    HeaderIff(state, serial);
    InPlaceIff(state, x);
    TargetFieldsIff(x.target.Get("attributes"));
    LegacySecretIff(x.legacySecret, x.arn);
    LegacyVersionIff(x.legacyVersion, x.arn, x.versionId);
  }

  /** The identity check passes with a serial exactly for the states that have every required field, written out above. */
  lemma IdentityCheckIff(state: Value, tainted: bool, serial: nat)
    ensures StateIdentity(state, tainted) == Some(serial) <==> exists x :: Required(state, tainted, serial, x)
  {
    hide StateIdentity, Required;
    if StateIdentity(state, tainted) == Some(serial) { var x := PassedMeans(state, tainted, serial); }
    forall x | Required(state, tainted, serial, x) ensures StateIdentity(state, tainted) == Some(serial) {
      RequiredPasses(state, tainted, serial, x);
    }
  }

  /** In an accepted pair both states have every required field, and the serial goes up by one. */
  lemma AcceptedFields(before: Value, after: Value) returns (serial: nat, x: Parts, y: Parts)
    requires Accepts(before, after)
    ensures Required(before, true, serial, x) && Required(after, false, serial + 1, y)
  {
    hide StateIdentity, Required, ComparedEqual;
    serial := StateIdentity(before, true).value;
    x := PassedMeans(before, true, serial);
    y := PassedMeans(after, false, serial + 1);
  }

  // ----- check results, field by field -----

  predicate Blank(c: char)
  {
    || 9 <= c as int <= 13 || 28 <= c as int <= 32 || 0x2000 <= c as int <= 0x200a
    || c as int in {0x85, 0xa0, 0x1680, 0x2028, 0x2029, 0x202f, 0x205f, 0x3000}
  }

  predicate Visible(v: Value) { v.Str? && exists i :: 0 <= i < |v.s| && !Blank(v.s[i]) }

  predicate ObjectsShape(objects: Value)
  {
    objects == Null ||
    (&& objects.Arr?
     && (forall i :: 0 <= i < |objects.items| ==> objects.items[i].Obj? && Visible(objects.items[i].Get("object_addr")))
     && forall i, j :: 0 <= i < j < |objects.items| ==> objects.items[i].Get("object_addr") != objects.items[j].Get("object_addr"))
  }

  predicate CheckShape(c: Value)
  {
    && c.Obj? && Visible(c.Get("config_addr")) && c.Has("objects") && ObjectsShape(c.Get("objects"))
    && (var kind := c.Get("object_kind"); kind == Str("resource") || kind == Str("output") || kind == Str("check") || kind == Str("var"))
  }

  /** Check results that the script does not refuse: shapes as above, and no identity twice. */
  predicate ChecksShape(checks: seq<Value>)
  {
    && (forall i :: 0 <= i < |checks| ==> CheckShape(checks[i]))
    && forall i, j :: 0 <= i < j < |checks| ==>
         checks[i].Get("object_kind") != checks[j].Get("object_kind") || checks[i].Get("config_addr") != checks[j].Get("config_addr")
  }

  lemma VisibleIff(v: Value)
    ensures Visible(v) <==> NonBlank(v)
  {
    if v.Str? {
      forall i | 0 <= i < |v.s| ensures Blank(v.s[i]) <==> PythonSpace(v.s[i]) { }
    }
  }

  lemma ObjectsShapeIff(objects: Value)
    ensures ObjectsShape(objects) <==> objects == Null || (objects.Arr? && ObjectsOk(objects.items))
  {
    if objects.Arr? {
      var items := objects.items;
      forall i | 0 <= i < |items| ensures Visible(items[i].Get("object_addr")) <==> NonBlank(items[i].Get("object_addr")) {
        VisibleIff(items[i].Get("object_addr"));
      }
      hide Visible, NonBlank, Value.Get;
      var keys := MapSeq(ObjectKey, items);
      if ObjectsShape(objects) { ObjectsShapeOk(items); }
      if ObjectsOk(items) { ObjectsOkShape(items); }
    }
  }

  lemma ObjectsShapeOk(items: seq<Value>)
    requires ObjectsShape(Arr(items)) && forall i :: 0 <= i < |items| ==> NonBlank(items[i].Get("object_addr"))
    ensures ObjectsOk(items)
  {
    hide Visible, Value.Get;
    var keys := MapSeq(ObjectKey, items);
    forall i, j | 0 <= i < j < |items| ensures keys[i] != keys[j] {
      assert items[i].Get("object_addr") != items[j].Get("object_addr");
      assert items[i].Get("object_addr").Str? && items[j].Get("object_addr").Str?;
    }
  }

  lemma ObjectsOkShape(items: seq<Value>)
    requires ObjectsOk(items) && forall i :: 0 <= i < |items| ==> (Visible(items[i].Get("object_addr")) <==> NonBlank(items[i].Get("object_addr")))
    ensures ObjectsShape(Arr(items))
  {
    hide Visible, Value.Get, NonBlank;
    var keys := MapSeq(ObjectKey, items);
    forall i | 0 <= i < |items| ensures items[i].Obj? && Visible(items[i].Get("object_addr")) { assert items[i] in items; }
    forall i, j | 0 <= i < j < |items| ensures items[i].Get("object_addr") != items[j].Get("object_addr") {
      assert keys[i] != keys[j];
    }
  }

  lemma CheckShapeIff(c: Value)
    ensures CheckShape(c) <==> CheckOk(c)
  {
    VisibleIff(c.Get("config_addr"));
    ObjectsShapeIff(c.Get("objects"));
    hide Visible, NonBlank, ObjectsShape, ObjectsOk, Value.Get;
  }

  /** The script accepts check results exactly when they have this shape. */
  lemma ChecksShapeIff(checks: seq<Value>)
    ensures ChecksShape(checks) <==> ChecksListOk(checks)
  {
    forall i | 0 <= i < |checks| ensures CheckShape(checks[i]) <==> CheckOk(checks[i]) { CheckShapeIff(checks[i]); }
    if ChecksShape(checks) { ChecksShapeOk(checks); }
    if ChecksListOk(checks) { ChecksOkShape(checks); }
  }

  lemma ChecksShapeOk(checks: seq<Value>)
    requires ChecksShape(checks) && forall i :: 0 <= i < |checks| ==> CheckOk(checks[i])
    ensures ChecksListOk(checks)
  {
    hide CheckShape, CheckOk, CheckKey, Value.Get;
    var keys := MapSeq(CheckKey, checks);
    forall i, j | 0 <= i < j < |checks| ensures keys[i] != keys[j] { DifferentKeys(checks[i], checks[j]); }
  }

  lemma DifferentKeys(c: Value, d: Value)
    requires CheckOk(c) && CheckOk(d)
    requires c.Get("object_kind") != d.Get("object_kind") || c.Get("config_addr") != d.Get("config_addr")
    ensures CheckKey(c) != CheckKey(d)
  {
    hide ObjectsOk, Value.Get;
  }

  lemma ChecksOkShape(checks: seq<Value>)
    requires ChecksListOk(checks) && forall i :: 0 <= i < |checks| ==> (CheckShape(checks[i]) <==> CheckOk(checks[i]))
    ensures ChecksShape(checks)
  {
    hide CheckShape, CheckOk, Value.Get;
    var keys := MapSeq(CheckKey, checks);
    forall i | 0 <= i < |checks| ensures CheckShape(checks[i]) { assert checks[i] in checks; }
    forall i, j | 0 <= i < j < |checks|
      ensures checks[i].Get("object_kind") != checks[j].Get("object_kind") || checks[i].Get("config_addr") != checks[j].Get("config_addr")
    {
      assert keys[i] != keys[j];
    }
  }

  // ----- a tainted state and its repair -----

  /** What a state of the repair is made of besides its serial, the taint and the check results. */
  datatype Situation = Situation(lineage: string, code: string, versionId: string, others: seq<Value>)

  function Arn(code: string): string { "arn:aws:secretsmanager:eu-west-1:334960985019:secret:/mycfc/production/app-secrets-" + code }

  function ResourceOf(kind: string, name: string, item: Value): Value
  {
    Obj(map["mode" := Str("managed"), "type" := Str(kind), "name" := Str(name), "instances" := Arr([item])])
  }

  /** An instance with these attributes and a status, or without one. */
  function Item(attributes: map<string, Value>, status: Option<string>): Value
  {
    Obj(match status
        case None => map["attributes" := Obj(attributes)]
        case Some(text) => map["attributes" := Obj(attributes), "status" := Str(text)])
  }

  function SecretAttributes(name: string, arn: string, description: string): map<string, Value>
  {
    map["name" := Str(name), "id" := Str(arn), "arn" := Str(arn), "description" := Str(description),
        "recovery_window_in_days" := Num("30"), "force_overwrite_replica_secret" := Bool(false)]
  }

  function TargetMap(): map<string, Value>
  {
    SecretAttributes(
      "/mycfc/production/app-runtime-secrets-v2",
      "arn:aws:secretsmanager:eu-west-1:334960985019:secret:/mycfc/production/app-runtime-secrets-v2-sVoQ2n",
      "MyCFC production web-runtime secrets v2")
  }

  function SecretMap(s: Situation): map<string, Value>
  {
    map["name" := Str("/mycfc/production/app-secrets"), "arn" := Str(Arn(s.code)), "id" := Str(Arn(s.code))]
  }

  function VersionMap(s: Situation): map<string, Value>
  {
    map["secret_id" := Str(Arn(s.code)), "version_id" := Str(s.versionId), "id" := Str(Arn(s.code) + "|" + s.versionId)]
  }

  function TargetItem(status: Option<string>): Value { Item(TargetMap(), status) }

  function SecretItem(s: Situation): Value { Item(SecretMap(s), None) }

  function VersionItem(s: Situation): Value { Item(VersionMap(s), None) }

  function ResourceList(s: Situation, status: Option<string>): seq<Value>
  {
    [ResourceOf("aws_secretsmanager_secret", "app_runtime", TargetItem(status)),
     ResourceOf("aws_secretsmanager_secret", "legacy_runtime", SecretItem(s)),
     ResourceOf("aws_secretsmanager_secret_version", "legacy_runtime", VersionItem(s))] + s.others
  }

  function StateOf(lineage: string, serial: nat, resources: seq<Value>, checks: seq<Value>): Value
  {
    Obj(map["version" := Num("4"), "serial" := Num(Decimal(serial)), "lineage" := Str(lineage),
            "resources" := Arr(resources), "check_results" := Arr(checks)])
  }

  function State(s: Situation, serial: nat, status: Option<string>, checks: seq<Value>): Value
  {
    StateOf(s.lineage, serial, ResourceList(s, status), checks)
  }

  /** The other resources are objects and none of them has one of the six names of this repair. */
  predicate Unrelated(others: seq<Value>)
  {
    forall i :: 0 <= i < |others| ==>
      && others[i].Obj?
      && !((others[i].Get("type") == Str("aws_secretsmanager_secret") || others[i].Get("type") == Str("aws_secretsmanager_secret_version"))
           && (others[i].Get("name") == Str("app_runtime") || others[i].Get("name") == Str("runtime") || others[i].Get("name") == Str("legacy_runtime")))
  }

  predicate Plausible(s: Situation)
  {
    && |s.lineage| == 36 && (forall i :: 0 <= i < 36 ==> var c := s.lineage[i]; '0' <= c <= '9' || 'a' <= c <= 'f' || 'A' <= c <= 'F' || c == '-')
    && |s.code| == 6 && Letters(s.code) && s.versionId != "" && Unrelated(s.others)
  }

  function PartsOf(s: Situation, status: Option<string>): Parts
  {
    Parts(ResourceList(s, status), TargetItem(status), SecretItem(s), VersionItem(s), Arn(s.code), s.versionId)
  }

  lemma ResourceEntries(kind: string, name: string, item: Value)
    ensures var r := ResourceOf(kind, name, item);
            && r.Obj? && r.Get("mode") == Str("managed") && r.Get("type") == Str(kind) && r.Get("name") == Str(name)
            && r.Get("instances") == Arr([item]) && r.Get("module") == Null
  {
    assert |"mode"| == 4 && |"type"| == 4 && |"name"| == 4 && |"instances"| == 9 && |"module"| == 6;
    assert "mode"[0] == 'm' && "type"[0] == 't' && "name"[0] == 'n';
  }

  lemma ItemEntries(attributes: map<string, Value>, status: Option<string>)
    ensures var i := Item(attributes, status);
            && i.Obj? && i.Get("attributes") == Obj(attributes) && !i.Has("index_key") && !i.Has("deposed")
            && i.Get("status") == (if status.Some? then Str(status.value) else Null)
  {
    assert |"attributes"| == 10 && |"status"| == 6 && |"index_key"| == 9 && |"deposed"| == 7;
  }

  lemma TargetEntries(status: Option<string>)
    ensures TargetFields(TargetItem(status).Get("attributes"))
  {
    hide Item, SecretAttributes, Value.Get;
    ItemEntries(TargetMap(), status);
    AttributeEntries(
      "/mycfc/production/app-runtime-secrets-v2",
      "arn:aws:secretsmanager:eu-west-1:334960985019:secret:/mycfc/production/app-runtime-secrets-v2-sVoQ2n",
      "MyCFC production web-runtime secrets v2");
  }

  lemma AttributeEntries(name: string, arn: string, description: string)
    ensures var v := Obj(SecretAttributes(name, arn, description));
            && v.Get("name") == Str(name) && v.Get("id") == Str(arn) && v.Get("arn") == Str(arn) && v.Get("description") == Str(description)
            && v.Get("recovery_window_in_days") == Num("30") && v.Get("force_overwrite_replica_secret") == Bool(false)
            && v.Get("kms_key_id") == Null && v.Get("replica") == Null && v.Get("name_prefix") == Null
  {
    assert |"name"| == 4 && |"id"| == 2 && |"arn"| == 3 && |"description"| == 11 && |"recovery_window_in_days"| == 23;
    assert |"force_overwrite_replica_secret"| == 30 && |"kms_key_id"| == 10 && |"replica"| == 7 && |"name_prefix"| == 11;
    assert "name_prefix"[0] == 'n' && "description"[0] == 'd';
  }

  lemma SecretEntries(s: Situation)
    requires |s.code| == 6 && Letters(s.code)
    ensures Ready(SecretItem(s).Get("status")) && LegacySecretFields(SecretItem(s).Get("attributes"), Arn(s.code))
  {
    hide Item;
    ItemEntries(SecretMap(s), None);
    assert |"name"| == 4 && |"id"| == 2 && |"arn"| == 3;
    hide Letters;
  }

  lemma VersionEntries(s: Situation)
    requires s.versionId != ""
    ensures Ready(VersionItem(s).Get("status")) && LegacyVersionFields(VersionItem(s).Get("attributes"), Arn(s.code), s.versionId)
  {
    hide Item, Arn;
    ItemEntries(VersionMap(s), None);
    assert |"secret_id"| == 9 && |"id"| == 2 && |"version_id"| == 10;
  }

  lemma StateEntries(s: Situation, serial: nat, status: Option<string>, checks: seq<Value>)
    ensures var v := State(s, serial, status, checks);
            && v.Obj? && v.Get("version") == Num("4") && v.Get("serial") == Num(Decimal(serial)) && v.Get("lineage") == Str(s.lineage)
            && v.Get("resources") == Arr(ResourceList(s, status)) && v.Get("check_results") == Arr(checks)
  {
    hide ResourceList, Decimal;
    assert |"version"| == 7 && |"serial"| == 6 && |"lineage"| == 7 && |"resources"| == 9 && |"check_results"| == 13;
    assert "version"[0] == 'v' && "lineage"[0] == 'l';
  }

  lemma StatePlaces(s: Situation, status: Option<string>)
    requires Unrelated(s.others)
    ensures var rs := ResourceList(s, status);
            && (forall i :: 0 <= i < |rs| ==> rs[i].Obj?)
            && OnlyInstanceAt(rs, "aws_secretsmanager_secret", "app_runtime", TargetItem(status), 0)
            && OnlyInstanceAt(rs, "aws_secretsmanager_secret", "legacy_runtime", SecretItem(s), 1)
            && OnlyInstanceAt(rs, "aws_secretsmanager_secret_version", "legacy_runtime", VersionItem(s), 2)
            && Absent(rs)
  {
    var rs := ResourceList(s, status);
    ListEntries(s, status);
    ItemShapes(s, status);
    hide ResourceList, TargetItem, SecretItem, VersionItem, Value.Get, Value.Has;
    assert |"app_runtime"| == 11 && |"legacy_runtime"| == 14 && |"runtime"| == 7;
    assert |"aws_secretsmanager_secret"| == 25 && |"aws_secretsmanager_secret_version"| == 33;
    forall i | 3 <= i < |rs| ensures rs[i].Obj? && NotOurs(rs[i]) { assert rs[i] == s.others[i - 3]; }
  }

  /** The type and the name of one of the six resources of this repair do not both occur. */
  predicate NotOurs(r: Value)
  {
    !((r.Get("type") == Str("aws_secretsmanager_secret") || r.Get("type") == Str("aws_secretsmanager_secret_version"))
      && (r.Get("name") == Str("app_runtime") || r.Get("name") == Str("runtime") || r.Get("name") == Str("legacy_runtime")))
  }

  predicate IsResource(r: Value, kind: string, name: string, item: Value)
  {
    && r.Obj? && r.Get("mode") == Str("managed") && r.Get("type") == Str(kind) && r.Get("name") == Str(name)
    && r.Get("instances") == Arr([item]) && r.Get("module") == Null
  }

  lemma ListEntries(s: Situation, status: Option<string>)
    ensures var rs := ResourceList(s, status);
            && |rs| == 3 + |s.others| && rs[3..] == s.others
            && (forall i :: 3 <= i < |rs| ==> rs[i] == s.others[i - 3])
            && IsResource(rs[0], "aws_secretsmanager_secret", "app_runtime", TargetItem(status))
            && IsResource(rs[1], "aws_secretsmanager_secret", "legacy_runtime", SecretItem(s))
            && IsResource(rs[2], "aws_secretsmanager_secret_version", "legacy_runtime", VersionItem(s))
  {
    hide ResourceOf, TargetItem, SecretItem, VersionItem, Value.Get;
    ResourceEntries("aws_secretsmanager_secret", "app_runtime", TargetItem(status));
    ResourceEntries("aws_secretsmanager_secret", "legacy_runtime", SecretItem(s));
    ResourceEntries("aws_secretsmanager_secret_version", "legacy_runtime", VersionItem(s));
  }

  predicate IsItem(i: Value) { i.Obj? && i.Get("attributes").Obj? && !i.Has("index_key") && !i.Has("deposed") }

  lemma ItemShapes(s: Situation, status: Option<string>)
    ensures IsItem(TargetItem(status)) && IsItem(SecretItem(s)) && IsItem(VersionItem(s))
    ensures TargetItem(status).Get("status") == (if status.Some? then Str(status.value) else Null)
  {
    hide Item, TargetMap, SecretMap, VersionMap, Value.Get, Value.Has;
    ItemEntries(TargetMap(), status);
    ItemEntries(SecretMap(s), None);
    ItemEntries(VersionMap(s), None);
  }

  /** A state so built has every required field. */
  lemma StateRequired(s: Situation, serial: nat, status: Option<string>, checks: seq<Value>)
    requires Plausible(s) && (status == Some("tainted") || status == None || status == Some("ready"))
    ensures Required(State(s, serial, status, checks), status == Some("tainted"), serial, PartsOf(s, status))
  {
    hide State, ResourceList, TargetItem, SecretItem, VersionItem, Arn, Absent, OnlyInstanceAt, TargetFields, LegacySecretFields,
      LegacyVersionFields, Unrelated, Letters, Value.Get, Decimal;
    StateEntries(s, serial, status, checks);
    StatePlaces(s, status);
    ItemShapes(s, status);
    TargetEntries(status);
    SecretEntries(s);
    VersionEntries(s);
    assert |"tainted"| == 7 && |"ready"| == 5;
  }

  lemma TargetIsFirst(s: Situation, serial: nat, status: Option<string>, checks: seq<Value>)
    requires Plausible(s)
    ensures InstanceAt(State(s, serial, status, checks), SecretType, TargetName) == Some(0)
  {
    hide State, ResourceList, TargetItem, SecretItem, VersionItem, Absent, Unrelated, Letters, Positions, Value.Get, Value.Has;
    StateEntries(s, serial, status, checks);
    StatePlaces(s, status);
    var v, rs := State(s, serial, status, checks), ResourceList(s, status);
    OnePosition(rs, SecretType, TargetName, 0);
  }

  lemma ReplaceInstance(kind: string, name: string, item: Value, other: Value)
    ensures ResourceOf(kind, name, item).Obj? && WithInstance(ResourceOf(kind, name, item), other) == ResourceOf(kind, name, other)
  {
    assert |"mode"| == 4 && |"type"| == 4 && |"name"| == 4 && |"instances"| == 9;
  }

  lemma ReplaceResources(lineage: string, n: nat, rs: seq<Value>, ss: seq<Value>, checks: seq<Value>)
    ensures Obj(StateOf(lineage, n, rs, checks).fields["resources" := Arr(ss)]) == StateOf(lineage, n, ss, checks)
  {
    hide Decimal;
    assert |"version"| == 7 && |"serial"| == 6 && |"lineage"| == 7 && |"resources"| == 9 && |"check_results"| == 13;
    var x, y := StateOf(lineage, n, rs, checks).fields["resources" := Arr(ss)], StateOf(lineage, n, ss, checks).fields;
    assert x.Keys == y.Keys;
  }

  lemma ReplaceSerial(lineage: string, n: nat, m: nat, rs: seq<Value>, checks: seq<Value>)
    ensures WithSerial(StateOf(lineage, n, rs, checks), m) == StateOf(lineage, m, rs, checks)
  {
    hide Decimal;
    assert |"version"| == 7 && |"serial"| == 6 && |"lineage"| == 7 && |"resources"| == 9 && |"check_results"| == 13;
    var x, y := WithSerial(StateOf(lineage, n, rs, checks), m).fields, StateOf(lineage, m, rs, checks).fields;
    assert x.Keys == y.Keys;
  }

  lemma ReplaceTarget(s: Situation, status: Option<string>)
    ensures var rs := ResourceList(s, Some("tainted"));
            && rs[0].Obj? && rs[0].Get("instances") == Arr([TargetItem(Some("tainted"))])
            && rs[0 := WithInstance(rs[0], TargetItem(status))] == ResourceList(s, status)
  {
    ListEntries(s, Some("tainted"));
    hide TargetItem, SecretItem, VersionItem, ResourceOf, WithInstance, Value.Get;
    ReplaceInstance("aws_secretsmanager_secret", "app_runtime", TargetItem(Some("tainted")), TargetItem(status));
  }

  lemma WithTargetState(s: Situation, serial: nat, checks: seq<Value>, f: Value -> Value, status: Option<string>)
    requires Plausible(s) && f(TargetItem(Some("tainted"))) == TargetItem(status)
    ensures HasTarget(State(s, serial, Some("tainted"), checks))
    ensures WithTarget(State(s, serial, Some("tainted"), checks), f) == State(s, serial, status, checks)
  {
    TargetIsFirst(s, serial, Some("tainted"), checks);
    StateEntries(s, serial, Some("tainted"), checks);
    hide InstanceAt, TargetItem, ResourceList, StateOf, WithInstance, Value.Get, Plausible;
    ReplaceTarget(s, status);
    ReplaceResources(s.lineage, serial, ResourceList(s, Some("tainted")), ResourceList(s, status), checks);
  }

  /** Marking the tainted instance turns it into the unmarked one, or the ready one. */
  lemma MarkedItems()
    ensures PopStatus(TargetItem(Some("tainted"))) == TargetItem(None)
    ensures SetReady(TargetItem(Some("tainted"))) == TargetItem(Some("ready"))
  {
    hide TargetMap;
    assert |"attributes"| == 10 && |"status"| == 6;
    assert PopStatus(TargetItem(Some("tainted"))).fields == TargetItem(None).fields;
    assert SetReady(TargetItem(Some("tainted"))).fields == TargetItem(Some("ready")).fields;
  }

  lemma RepairedState(s: Situation, serial: nat, checks: seq<Value>)
    requires Plausible(s) && Surroundings(State(s, serial, Some("tainted"), checks))
    ensures Repaired(State(s, serial, Some("tainted"), checks), serial, PopStatus) == State(s, serial + 1, None, checks)
    ensures Repaired(State(s, serial, Some("tainted"), checks), serial, SetReady) == State(s, serial + 1, Some("ready"), checks)
  {
    hide Surroundings, Plausible, WithSerial, StateOf, WithTarget, TargetItem, PopStatus, SetReady, ResourceList, InstanceAt;
    MarkedItems();
    ReplaceSerial(s.lineage, serial, serial + 1, ResourceList(s, Some("tainted")), checks);
    WithTargetState(s, serial + 1, checks, PopStatus, None);
    WithTargetState(s, serial + 1, checks, SetReady, Some("ready"));
  }

  lemma ReorderedChecks(s: Situation, serial: nat, status: Option<string>, checks: seq<Value>, reordered: seq<Value>)
    requires multiset(reordered) == multiset(checks)
    ensures SameState(State(s, serial, status, reordered), State(s, serial, status, checks))
  {
    var x, y := State(s, serial, status, reordered), State(s, serial, status, checks);
    StateEntries(s, serial, status, reordered);
    StateEntries(s, serial, status, checks);
    hide ResourceList, Decimal, CheckEq;
    assert x.fields.Keys == y.fields.Keys;
    assert PairwiseCheckEq(reordered, reordered) by { SelfEqual(reordered); }
  }

  lemma SelfEqual(checks: seq<Value>)
    ensures PairwiseCheckEq(checks, checks)
  {
  }

  /** The other resources and the check results are documents with well-formed numbers. */
  predicate Documents(s: Situation, checks: seq<Value>)
  {
    (forall r :: r in s.others ==> WellFormed(r)) && forall c :: c in checks ==> WellFormed(c)
  }

  lemma ResourceWellFormed(kind: string, name: string, item: Value)
    requires WellFormed(item)
    ensures WellFormed(ResourceOf(kind, name, item))
  {
    assert forall x :: x in [item] ==> WellFormed(x);
  }

  lemma ItemWellFormed(attributes: map<string, Value>, status: Option<string>)
    requires WellFormed(Obj(attributes))
    ensures WellFormed(Item(attributes, status))
  {
  }

  lemma ItemsWellFormed(s: Situation, status: Option<string>)
    ensures WellFormed(TargetItem(status)) && WellFormed(SecretItem(s)) && WellFormed(VersionItem(s))
  {
    hide Item, Arn, SecretAttributes, WellFormed, SecretMap, VersionMap;
    AttributesWellFormed(
      "/mycfc/production/app-runtime-secrets-v2",
      "arn:aws:secretsmanager:eu-west-1:334960985019:secret:/mycfc/production/app-runtime-secrets-v2-sVoQ2n",
      "MyCFC production web-runtime secrets v2");
    LegacyMapsWellFormed(s);
    ItemWellFormed(TargetMap(), status);
    ItemWellFormed(SecretMap(s), None);
    ItemWellFormed(VersionMap(s), None);
  }

  lemma AttributesWellFormed(name: string, arn: string, description: string)
    ensures WellFormed(Obj(SecretAttributes(name, arn, description)))
  {
    assert NumberLexeme("30");
  }

  lemma LegacyMapsWellFormed(s: Situation)
    ensures WellFormed(Obj(SecretMap(s))) && WellFormed(Obj(VersionMap(s)))
  {
    hide Arn;
  }

  lemma StateWellFormed(s: Situation, serial: nat, status: Option<string>, checks: seq<Value>)
    requires Documents(s, checks)
    ensures WellFormed(State(s, serial, status, checks))
  {
    ItemsWellFormed(s, status);
    hide TargetItem, SecretItem, VersionItem, ResourceOf;
    ResourceWellFormed("aws_secretsmanager_secret", "app_runtime", TargetItem(status));
    ResourceWellFormed("aws_secretsmanager_secret", "legacy_runtime", SecretItem(s));
    ResourceWellFormed("aws_secretsmanager_secret_version", "legacy_runtime", VersionItem(s));
    assert NumberLexeme("4") && NumberLexeme(Decimal(serial));
    ListWellFormed(ResourceList(s, status));
    ListWellFormed(checks);
    hide ResourceList, Decimal;
  }

  lemma ListWellFormed(xs: seq<Value>)
    ensures WellFormed(Arr(xs)) <==> forall x :: x in xs ==> WellFormed(x)
  {
  }

  /**
   * For every tainted state of this kind, with any other resources and any well-shaped check results, the guard accepts
   * exactly the state with the next serial in which the taint is gone or replaced by the ready mark, up to the order of
   * check results and of their objects.
   */
  lemma RepairAcceptedIff(s: Situation, serial: nat, checks: seq<Value>, after: Value)
    requires Plausible(s) && ChecksShape(checks) && Documents(s, checks) && WellFormed(after)
    ensures Accepts(State(s, serial, Some("tainted"), checks), after) <==>
            SameState(after, State(s, serial + 1, None, checks)) || SameState(after, State(s, serial + 1, Some("ready"), checks))
  {
    hide Plausible, Documents, WellFormed, State, Accepts, SameState, StateIdentity, ChecksListOk, ChecksShape, Required;
    var before := State(s, serial, Some("tainted"), checks);
    StateRequired(s, serial, Some("tainted"), checks);
    RequiredPasses(before, true, serial, PartsOf(s, Some("tainted")));
    StateWellFormed(s, serial, Some("tainted"), checks);
    StateEntries(s, serial, Some("tainted"), checks);
    ChecksShapeIff(checks);
    AcceptsIff(before, after);
    hide Surroundings, Repaired, PopStatus, SetReady;
    RepairedState(s, serial, checks);
  }

  /** In particular the repaired state is accepted, with or without the ready mark and whatever the order of its checks. */
  lemma RepairIsAccepted(s: Situation, serial: nat, ready: bool, checks: seq<Value>, reordered: seq<Value>)
    requires Plausible(s) && ChecksShape(checks) && Documents(s, checks) && multiset(reordered) == multiset(checks)
    ensures Accepts(State(s, serial, Some("tainted"), checks), State(s, serial + 1, if ready then Some("ready") else None, reordered))
  {
    var status := if ready then Some("ready") else None;
    SameMembers(reordered, checks);
    assert Documents(s, reordered);
    hide Plausible, Documents, WellFormed, State, Accepts, SameState, ChecksShape;
    StateWellFormed(s, serial + 1, status, reordered);
    ReorderedChecks(s, serial + 1, status, checks, reordered);
    RepairAcceptedIff(s, serial, checks, State(s, serial + 1, status, reordered));
  }
}
