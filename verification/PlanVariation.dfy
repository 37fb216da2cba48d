/** What the normalisation of plans does to the texts Terraform writes, and the plan and apply documents of one session. */
module PlanVariation {
  import opened Text
  import opened Sorting
  import opened Json
  import opened PlanNormalization

  // ----- the texts -----

  /** The parts of an assumed-role ARN, character by character. */
  predicate ArnParts(partition: string, account: string, session: string)
  {
    && |partition| >= 3 && partition[..3] == "aws"
    && (forall i :: 0 <= i < |partition| ==> 'a' <= partition[i] <= 'z' || 'A' <= partition[i] <= 'Z' || partition[i] == '-')
    && |account| == 12 && (forall i :: 0 <= i < |account| ==> '0' <= account[i] <= '9')
    && |session| > 0 && forall i :: 0 <= i < |session| ==> session[i] != '/'
  }

  function ArnText(partition: string, account: string, role: string, session: string): string
  {
    "arn:" + (partition + (":sts::" + (account + (":assumed-role/github-infra-" + (role + ("/" + session))))))
  }

  /** A role id and a session suffix. */
  predicate UserParts(id: string, suffix: string)
  {
    && |id| > 0 && (forall i :: 0 <= i < |id| ==> 'A' <= id[i] <= 'Z' || '0' <= id[i] <= '9')
    && |suffix| > 0 && forall i :: 0 <= i < |suffix| ==> suffix[i] != '\n'
  }

  /** The text is the ARN of the plan role or of the apply role with these parts. */
  predicate IsRoleArn(text: string, partition: string, account: string, session: string)
  {
    && ArnParts(partition, account, session)
    && (text == ArnText(partition, account, "plan", session) || text == ArnText(partition, account, "apply", session))
  }

  lemma ArnPartsAreValid(partition: string, account: string, session: string)
    ensures ArnParts(partition, account, session) <==> ValidArn(RoleArn(partition, account, session))
  {
  }

  /** The scan finds exactly the ARNs of the two roles. */
  lemma RoleArnIff(text: string, partition: string, account: string, session: string)
    ensures MatchArn(text) == Some(RoleArn(partition, account, session)) <==> IsRoleArn(text, partition, account, session)
  {
    var r := RoleArn(partition, account, session);
    ArnPartsAreValid(partition, account, session);
    assert RenderArn(r, PlanRole) == ArnText(partition, account, "plan", session);
    assert RenderArn(r, ApplyRole) == ArnText(partition, account, "apply", session);
    hide ValidArn, ArnParts, RenderArn, ArnText, MatchArn;
    if IsRoleArn(text, partition, account, session) { MatchArnComplete(text, r); }
  }

  /** The suffix of a user id is what follows the role id and the colon; every other text has none. */
  lemma UserSuffixIff(text: string, suffix: string)
    ensures UserSuffix(text) == Some(suffix) <==> exists id :: UserParts(id, suffix) && text == id + (":" + suffix)
  {
    if UserSuffix(text) == Some(suffix) {
      var n := SpanOf(text, UserIdChar);
      assert text == text[..n] + (":" + text[n + 1..]);
      assert UserParts(text[..n], suffix);
    }
    forall id | UserParts(id, suffix) && text == id + (":" + suffix) ensures UserSuffix(text) == Some(suffix) {
      SpanExact(id, ":" + suffix, UserIdChar);
      assert text[|id|] == ':' && text[|id| + 1..] == suffix;
    }
  }

  // ----- one identity -----

  /** An identity of either role, with a user id of that role: both texts lose the role and keep everything else. */
  lemma RoleIdentity(v: Value, partition: string, account: string, session: string, id: string, suffix: string)
    requires v.Get("arn").Str? && IsRoleArn(v.Get("arn").s, partition, account, session)
    requires UserParts(id, suffix) && v.Get("user_id") == Str(id + (":" + suffix))
    ensures NormIdentity(v) == Obj(v.fields["arn" := Str(ArnText(partition, account, "<normalized>", session))]
                                           ["user_id" := Str("<normalized-caller-role-user-id>:" + suffix)])
  {
    hide MatchArn, RenderArn, ArnText, UserSuffix, IsRoleArn, UserParts, MarkedUser, Value.Get;
    RoleArnIff(v.Get("arn").s, partition, account, session);
    UserSuffixIff(id + (":" + suffix), suffix);
    MarkedTexts(partition, account, session, suffix);
  }

  lemma MarkedTexts(partition: string, account: string, session: string, suffix: string)
    ensures RenderArn(RoleArn(partition, account, session), NormalizedRole) == ArnText(partition, account, "<normalized>", session)
    ensures MarkedUser(suffix) == "<normalized-caller-role-user-id>:" + suffix
  {
  }

  /** With any other user id, or none, only the ARN changes. */
  lemma OtherUserKept(v: Value, partition: string, account: string, session: string)
    requires v.Get("arn").Str? && IsRoleArn(v.Get("arn").s, partition, account, session)
    requires forall id, suffix :: UserParts(id, suffix) ==> v.Get("user_id") != Str(id + (":" + suffix))
    ensures NormIdentity(v) == Obj(v.fields["arn" := Str(ArnText(partition, account, "<normalized>", session))])
  {
    RoleArnIff(v.Get("arn").s, partition, account, session);
    MarkedTexts(partition, account, session, "");
    hide MatchArn, RenderArn, ArnText, UserSuffix, IsRoleArn, UserParts, MarkedUser;
    var u := v.Get("user_id");
    if u.Str? && UserSuffix(u.s).Some? {
      UserSuffixIff(u.s, UserSuffix(u.s).value);
    }
  }

  /** An identity with any other ARN, or none, is left as it is. */
  lemma OtherIdentityKept(v: Value)
    requires forall partition, account, session :: v.Get("arn").Str? ==> !IsRoleArn(v.Get("arn").s, partition, account, session)
    ensures NormIdentity(v) == v
  {
    hide MatchArn, IsRoleArn;
    var arn := v.Get("arn");
    if arn.Str? && MatchArn(arn.s).Some? {
      var r := MatchArn(arn.s).value;
      RoleArnIff(arn.s, r.partition, r.account, r.session);
    }
  }

  // ----- one record -----

  predicate Headed(r: Value, address: string, kind: string, name: string)
  {
    && r.Get("address") == Str(address) && r.Get("mode") == Str("data") && r.Get("type") == Str(kind) && r.Get("name") == Str(name)
  }

  /** n is r with g applied to these entries, and to these phases of its change; everything else is the same. */
  predicate ChangedAt(r: Value, n: Value, entries: set<string>, phases: set<string>, g: Value -> Value)
  {
    && r.Obj? && n.Obj? && n.fields.Keys == r.fields.Keys
    && (forall k :: k in r.fields && k in entries ==> n.fields[k] == g(r.fields[k]))
    && (forall k :: k in r.fields && k !in entries && k != "change" ==> n.fields[k] == r.fields[k])
    && ("change" in r.fields ==> PhasesChanged(r.fields["change"], n.fields["change"], phases, g))
  }

  predicate PhasesChanged(c: Value, d: Value, phases: set<string>, g: Value -> Value)
  {
    if !c.Obj? then d == c
    else
      && d.Obj? && d.fields.Keys == c.fields.Keys
      && forall k :: k in c.fields ==> d.fields[k] == if k in phases then g(c.fields[k]) else c.fields[k]
  }

  /** Where the caller's identity and the zone lookups are normalised, and that nothing else of a record is. */
  lemma RecordForm(r: Value)
    ensures Headed(r, "data.aws_caller_identity.current", "aws_caller_identity", "current") ==>
              ChangedAt(r, NormRecord(r), {"values"}, {"before", "after"}, NormIdentity)
    ensures Headed(r, "data.cloudflare_zones.application", "cloudflare_zones", "application") ==>
              ChangedAt(r, NormRecord(r), {"values", "sensitive_values"},
                        {"before", "after", "before_sensitive", "after_sensitive", "after_unknown"}, NormLookup)
    ensures NormRecord(r) != r ==>
              || Headed(r, "data.aws_caller_identity.current", "aws_caller_identity", "current")
              || Headed(r, "data.cloudflare_zones.application", "cloudflare_zones", "application")
  {
    NormRecordCases(r);
    HeadedIff(r);
    if IsCaller(r) { PartsForm(r, CallerDirect, CallerPhases, NormIdentity); }
    if IsZones(r) { PartsForm(r, ZonesDirect, ZonesPhases, NormLookup); }
    hide NormRecord, IsRecord, Headed, NormParts, ChangedAt, NormIdentity, NormLookup;
  }

  lemma HeadedIff(r: Value)
    ensures Headed(r, "data.aws_caller_identity.current", "aws_caller_identity", "current") <==> IsCaller(r)
    ensures Headed(r, "data.cloudflare_zones.application", "cloudflare_zones", "application") <==> IsZones(r)
  {
  }

  lemma PartsForm(r: Value, entries: set<string>, phases: set<string>, g: Value -> Value)
    requires r.Obj? && "change" !in entries
    ensures ChangedAt(r, NormParts(r, entries, phases, g), entries, phases, g)
  {
    if "change" in r.fields { PhasesForm(r.fields["change"], phases, g); }
    hide NormPhases, PhasesChanged;
  }

  lemma PhasesForm(c: Value, phases: set<string>, g: Value -> Value)
    ensures PhasesChanged(c, NormPhases(c, phases, g), phases, g)
  {
  }

  // ----- the documents of the two roles -----

  /** What the roles share: the session, and every other entry of the objects in which they differ. */
  datatype Context = Context(
    partition: string, account: string, session: string, suffix: string,
    identity: map<string, Value>, record: map<string, Value>, phases: map<string, Value>,
    zones: seq<map<string, Value>>, lookup: map<string, Value>, zonesRecord: map<string, Value>, others: seq<Value>,
    root: map<string, Value>, child: map<string, Value>, values: map<string, Value>, prior: map<string, Value>,
    deferred: map<string, Value>, plan: map<string, Value>)

  /** What differs: the role, its id, the permissions its token sees on a zone, and the time. */
  datatype Actor = Actor(role: string, id: string, permissions: Value, timestamp: Value)

  function Identity(c: Context, a: Actor): Value
  {
    Obj(c.identity["arn" := Str(ArnText(c.partition, c.account, a.role, c.session))]["user_id" := Str(a.id + (":" + c.suffix))])
  }

  function CallerRecord(c: Context, a: Actor): Value
  {
    Obj(c.record["address" := Str("data.aws_caller_identity.current")]["mode" := Str("data")]
                ["type" := Str("aws_caller_identity")]["name" := Str("current")]
                ["values" := Identity(c, a)]["change" := Obj(c.phases["before" := Identity(c, a)]["after" := Identity(c, a)])])
  }

  /** The looked-up zones, each with the permissions of the token that looked. */
  function Lookup(c: Context, a: Actor): Value
  {
    Obj(c.lookup["result" := Arr(seq(|c.zones|, i requires 0 <= i < |c.zones| => Obj(c.zones[i]["permissions" := a.permissions])))])
  }

  function ZonesRecord(c: Context, a: Actor): Value
  {
    Obj(c.zonesRecord["address" := Str("data.cloudflare_zones.application")]["mode" := Str("data")]
                     ["type" := Str("cloudflare_zones")]["name" := Str("application")]
                     ["values" := Lookup(c, a)]["sensitive_values" := Lookup(c, a)])
  }

  function Records(c: Context, a: Actor): seq<Value> { [CallerRecord(c, a), ZonesRecord(c, a)] + c.others }

  /** A module with the records, and a child module with the same. */
  function Root(c: Context, a: Actor): Value
  {
    Obj(c.root["resources" := Arr(Records(c, a))]
              ["child_modules" := Arr([Obj(c.child["resources" := Arr(Records(c, a))]["child_modules" := Arr([])])])])
  }

  /** The document that Terraform emits for a role. */
  function PlanDocument(c: Context, a: Actor): Value
  {
    Obj(c.plan["timestamp" := a.timestamp]
              ["planned_values" := Obj(c.values["root_module" := Root(c, a)])]
              ["prior_state" := Obj(c.prior["values" := Obj(c.values["root_module" := Root(c, a)])])]
              ["resource_changes" := Arr(Records(c, a))]
              ["resource_drift" := Arr(Records(c, a))]
              ["deferred_changes" := Arr([Obj(c.deferred["resource_change" := CallerRecord(c, a)])])])
  }

  /** The actor runs under the plan role or the apply role. */
  predicate RunsAsRole(c: Context, a: Actor)
  {
    (a.role == "plan" || a.role == "apply") && ArnParts(c.partition, c.account, c.session) && UserParts(a.id, c.suffix)
  }

  lemma IdentityAgrees(c: Context, a: Actor, b: Actor)
    requires RunsAsRole(c, a) && RunsAsRole(c, b)
    ensures NormIdentity(Identity(c, a)) == NormIdentity(Identity(c, b))
  {
    IdentityForm(c, a);
    IdentityForm(c, b);
  }

  lemma IdentityForm(c: Context, a: Actor)
    requires RunsAsRole(c, a)
    ensures NormIdentity(Identity(c, a)) == Obj(c.identity["arn" := Str(ArnText(c.partition, c.account, "<normalized>", c.session))]
                                                          ["user_id" := Str("<normalized-caller-role-user-id>:" + c.suffix)])
  {
    hide ArnText, ArnParts, UserParts, NormIdentity;
    assert |"arn"| != |"user_id"|;
    var v := Identity(c, a);
    assert v.Get("arn") == Str(ArnText(c.partition, c.account, a.role, c.session)) && v.Get("user_id") == Str(a.id + (":" + c.suffix));
    RoleIdentity(v, c.partition, c.account, c.session, a.id, c.suffix);
  }

  lemma PartsAgree(v: Value, w: Value, direct: set<string>, phases: set<string>, g: Value -> Value)
    requires v.Obj? && w.Obj? && v.fields.Keys == w.fields.Keys && "change" !in direct
    requires forall k :: k in v.fields && k in direct ==> g(v.fields[k]) == g(w.fields[k])
    requires NormPhases(v.Get("change"), phases, g) == NormPhases(w.Get("change"), phases, g)
    requires forall k :: k in v.fields && k !in direct && k != "change" ==> v.fields[k] == w.fields[k]
    ensures NormParts(v, direct, phases, g) == NormParts(w, direct, phases, g)
  {
    hide NormPhases;
  }

  lemma CallerHeader(c: Context, a: Actor)
    ensures IsCaller(CallerRecord(c, a))
  {
    hide Identity;
    var r := CallerRecord(c, a);
    assert |"address"| == 7 && |"mode"| == 4 && |"type"| == 4 && |"name"| == 4 && |"values"| == 6 && |"change"| == 6;
    assert "mode"[0] == 'm' && "type"[0] == 't' && "name"[0] == 'n';
  }

  lemma CallerAgrees(c: Context, a: Actor, b: Actor)
    requires RunsAsRole(c, a) && RunsAsRole(c, b)
    ensures NormRecord(CallerRecord(c, a)) == NormRecord(CallerRecord(c, b))
  {
    CallerHeader(c, a);
    CallerHeader(c, b);
    var v, w := CallerRecord(c, a), CallerRecord(c, b);
    NormRecordCases(v);
    NormRecordCases(w);
    hide NormRecord, IsCaller, NormIdentity, Identity, RunsAsRole, NormParts;
    IdentityAgrees(c, a, b);
    assert "change"[0] != "values"[0];
    assert v.Get("change") == Obj(c.phases["before" := Identity(c, a)]["after" := Identity(c, a)]);
    assert w.Get("change") == Obj(c.phases["before" := Identity(c, b)]["after" := Identity(c, b)]);
    PhasesAgree(c.phases, Identity(c, a), Identity(c, b));
    PartsAgree(v, w, CallerDirect, CallerPhases, NormIdentity);
  }

  lemma PhasesAgree(rest: map<string, Value>, x: Value, y: Value)
    requires NormIdentity(x) == NormIdentity(y)
    ensures NormPhases(Obj(rest["before" := x]["after" := x]), CallerPhases, NormIdentity)
         == NormPhases(Obj(rest["before" := y]["after" := y]), CallerPhases, NormIdentity)
  {
    hide NormIdentity;
  }

  lemma LookupAgrees(c: Context, a: Actor, b: Actor)
    ensures NormLookup(Lookup(c, a)) == NormLookup(Lookup(c, b))
  {
    var xs, ys := Lookup(c, a).Get("result").items, Lookup(c, b).Get("result").items;
    forall i | 0 <= i < |c.zones| ensures DropPermissions(xs[i]) == DropPermissions(ys[i]) {
      assert xs[i].fields - {"permissions"} == ys[i].fields - {"permissions"};
    }
    assert MapSeq(DropPermissions, xs) == MapSeq(DropPermissions, ys);
    hide DropPermissions;
  }

  lemma ZonesHeader(c: Context, a: Actor)
    ensures IsZones(ZonesRecord(c, a)) && ZonesRecord(c, a).Get("change") == Obj(c.zonesRecord).Get("change")
  {
    hide Lookup;
    var r := ZonesRecord(c, a);
    assert |"address"| == 7 && |"mode"| == 4 && |"type"| == 4 && |"name"| == 4 && |"values"| == 6 && |"change"| == 6;
    assert "mode"[0] == 'm' && "type"[0] == 't' && "name"[0] == 'n' && "values"[0] == 'v' && |"sensitive_values"| == 16;
  }

  lemma ZonesAgree(c: Context, a: Actor, b: Actor)
    ensures NormRecord(ZonesRecord(c, a)) == NormRecord(ZonesRecord(c, b))
  {
    ZonesHeader(c, a);
    ZonesHeader(c, b);
    var v, w := ZonesRecord(c, a), ZonesRecord(c, b);
    NormRecordCases(v);
    NormRecordCases(w);
    hide NormRecord, IsZones, IsCaller, NormLookup, Lookup, NormParts, NormPhases, Value.Get;
    LookupAgrees(c, a, b);
    assert "change"[0] != "values"[0] && |"change"| != |"sensitive_values"|;
    PartsAgree(v, w, ZonesDirect, ZonesPhases, NormLookup);
  }

  lemma RecordsAgree(c: Context, a: Actor, b: Actor)
    requires RunsAsRole(c, a) && RunsAsRole(c, b)
    ensures MapSeq(NormRecord, Records(c, a)) == MapSeq(NormRecord, Records(c, b))
  {
    hide NormRecord, CallerRecord, ZonesRecord, RunsAsRole;
    CallerAgrees(c, a, b);
    ZonesAgree(c, a, b);
    MapAfterTwo(NormRecord, CallerRecord(c, a), ZonesRecord(c, a), c.others);
    MapAfterTwo(NormRecord, CallerRecord(c, b), ZonesRecord(c, b), c.others);
  }

  lemma MapAfterTwo(f: Value -> Value, x: Value, y: Value, rest: seq<Value>)
    ensures MapSeq(f, [x, y] + rest) == [f(x), f(y)] + MapSeq(f, rest)
  {
  }

  lemma ModuleAgrees(rest: map<string, Value>, rs: seq<Value>, ss: seq<Value>, xs: seq<Value>, ys: seq<Value>)
    requires MapSeq(NormRecord, rs) == MapSeq(NormRecord, ss) && NormModules(xs) == NormModules(ys)
    ensures NormModule(Obj(rest["resources" := Arr(rs)]["child_modules" := Arr(xs)]))
         == NormModule(Obj(rest["resources" := Arr(ss)]["child_modules" := Arr(ys)]))
  {
    assert NormResources(Arr(rs)) == NormResources(Arr(ss)) && NormChildren(Arr(xs)) == NormChildren(Arr(ys)) by {
      hide NormRecord, SortByText, NormModules, NormModule;
    }
    hide NormResources, NormChildren, NormModule, NormModules, MapSeq;
    ModuleForm(rest, rs, xs);
    ModuleForm(rest, ss, ys);
  }

  lemma ModuleForm(rest: map<string, Value>, rs: seq<Value>, xs: seq<Value>)
    ensures NormModule(Obj(rest["resources" := Arr(rs)]["child_modules" := Arr(xs)]))
         == Obj(rest["resources" := NormResources(Arr(rs))]["child_modules" := NormChildren(Arr(xs))])
  {
    hide NormResources, NormChildren, NormModule;
    var m := Obj(rest["resources" := Arr(rs)]["child_modules" := Arr(xs)]);
    assert |"resources"| != |"child_modules"|;
    ListsReplaced(m);
    SetBoth(rest, "resources", "child_modules", Arr(rs), Arr(xs), NormResources(Arr(rs)), NormChildren(Arr(xs)));
  }

  lemma SetBoth(m: map<string, Value>, k: string, l: string, a: Value, b: Value, x: Value, y: Value)
    requires k != l
    ensures m[k := a][l := b][k := x][l := y] == m[k := x][l := y]
    ensures m[k := a][l := b][k] == a && m[k := a][l := b][l] == b
  {
  }

  lemma RootAgrees(c: Context, a: Actor, b: Actor)
    requires RunsAsRole(c, a) && RunsAsRole(c, b)
    ensures NormModule(Root(c, a)) == NormModule(Root(c, b))
  {
    hide NormModule, RunsAsRole, Records, NormRecord;
    RecordsAgree(c, a, b);
    var x := Obj(c.child["resources" := Arr(Records(c, a))]["child_modules" := Arr([])]);
    var y := Obj(c.child["resources" := Arr(Records(c, b))]["child_modules" := Arr([])]);
    ModuleAgrees(c.child, Records(c, a), Records(c, b), [], []);
    assert NormModules([x]) == NormModules([y]);
    ModuleAgrees(c.root, Records(c, a), Records(c, b), [x], [y]);
  }

  lemma UnderKey(rest: map<string, Value>, key: string, x: Value, y: Value, f: Value -> Value)
    requires f(x) == f(y)
    ensures UpdateAt(Obj(rest[key := x]), key, f) == UpdateAt(Obj(rest[key := y]), key, f)
  {
    assert rest[key := x][key := f(x)] == rest[key := y][key := f(y)];
  }

  /**
   * The purpose of the normalisation, in Terraform's own texts: the documents that the plan role and the apply role emit
   * for one session, each with its own user id, zone permissions and time, have the same normal form.
   */
  lemma PlanAndApplyAgree(c: Context, a: Actor, b: Actor)
    requires RunsAsRole(c, a) && RunsAsRole(c, b)
    ensures NormPlan(PlanDocument(c, a)) == NormPlan(PlanDocument(c, b))
  {
    hide RunsAsRole, Root, Records, CallerRecord, NormModule, NormRecord, MapSeq, NormPlanField;
    var p, q := PlanDocument(c, a), PlanDocument(c, b);
    assert p.fields.Keys == q.fields.Keys;
    FieldsAgree(c, a, b);
    hide PlanDocument;
    var x, y := NormPlan(p).fields, NormPlan(q).fields;
    assert x.Keys == y.Keys;
    forall k | k in x ensures x[k] == y[k] { }
  }

  lemma PlanKeysDiffer()
    ensures var keys := ["timestamp", "planned_values", "prior_state", "resource_changes", "resource_drift", "deferred_changes"];
            forall i, j :: 0 <= i < j < 6 ==> keys[i] != keys[j]
  {
    assert |"timestamp"| == 9 && |"planned_values"| == 14 && |"prior_state"| == 11;
    assert |"resource_changes"| == 16 && |"resource_drift"| == 14 && |"deferred_changes"| == 16;
    assert "planned_values"[0] == 'p' && "resource_drift"[0] == 'r' && "resource_changes"[0] == 'r' && "deferred_changes"[0] == 'd';
  }

  function SetSix(m: map<string, Value>, k: seq<string>, x: seq<Value>): map<string, Value>
    requires |k| == 6 && |x| == 6
  {
    m[k[0] := x[0]][k[1] := x[1]][k[2] := x[2]][k[3] := x[3]][k[4] := x[4]][k[5] := x[5]]
  }

  lemma DocumentIsSixfold(c: Context, a: Actor, keys: seq<string>)
    requires keys == ["timestamp", "planned_values", "prior_state", "resource_changes", "resource_drift", "deferred_changes"]
    ensures PlanDocument(c, a).fields == SetSix(c.plan, keys, Sixfold(c, a))
  {
    hide Root, Records, CallerRecord;
  }

  lemma SixEntries(m: map<string, Value>, k: seq<string>, x: seq<Value>)
    requires |k| == 6 && |x| == 6 && forall i, j :: 0 <= i < j < 6 ==> k[i] != k[j]
    ensures var f := SetSix(m, k, x);
            && (forall i :: 0 <= i < 6 ==> k[i] in f && f[k[i]] == x[i])
            && (forall l :: l !in k ==> (l in f <==> l in m) && (l in m ==> f[l] == m[l]))
  {
  }

  lemma SixAgree(m: map<string, Value>, keys: seq<string>, x: seq<Value>, y: seq<Value>)
    requires |keys| == 6 && |x| == 6 && |y| == 6 && forall i, j :: 0 <= i < j < 6 ==> keys[i] != keys[j]
    requires forall i :: 1 <= i < 6 ==> NormPlanField(keys[i], x[i]) == NormPlanField(keys[i], y[i])
    ensures var p, q := SetSix(m, keys, x), SetSix(m, keys, y);
            forall k :: k in p && k != keys[0] ==> k in q && NormPlanField(k, p[k]) == NormPlanField(k, q[k])
  {
    hide SetSix, NormPlanField;
    SixEntries(m, keys, x);
    SixEntries(m, keys, y);
    var p, q := SetSix(m, keys, x), SetSix(m, keys, y);
    forall k | k in p && k != keys[0] ensures k in q && NormPlanField(k, p[k]) == NormPlanField(k, q[k]) {
      if k in keys {
        var i :| 0 <= i < 6 && keys[i] == k;
        assert NormPlanField(keys[i], x[i]) == NormPlanField(keys[i], y[i]);
      }
    }
  }

  lemma FieldsAgree(c: Context, a: Actor, b: Actor)
    requires RunsAsRole(c, a) && RunsAsRole(c, b)
    ensures var p, q := PlanDocument(c, a).fields, PlanDocument(c, b).fields;
            forall k :: k in p && k != "timestamp" ==> k in q && NormPlanField(k, p[k]) == NormPlanField(k, q[k])
  {
    hide PlanDocument, Sixfold, RunsAsRole, NormPlanField, SetSix;
    var keys := ["timestamp", "planned_values", "prior_state", "resource_changes", "resource_drift", "deferred_changes"];
    PlanKeysDiffer();
    EntriesAgree(c, a, b, keys);
    DocumentIsSixfold(c, a, keys);
    DocumentIsSixfold(c, b, keys);
    SixAgree(c.plan, keys, Sixfold(c, a), Sixfold(c, b));
    assert keys[0] == "timestamp";
  }

  function Sixfold(c: Context, a: Actor): (x: seq<Value>)
    ensures |x| == 6
  {
    var values := Obj(c.values["root_module" := Root(c, a)]);
    [a.timestamp, values, Obj(c.prior["values" := values]), Arr(Records(c, a)), Arr(Records(c, a)),
     Arr([Obj(c.deferred["resource_change" := CallerRecord(c, a)])])]
  }

  lemma EntriesAgree(c: Context, a: Actor, b: Actor, keys: seq<string>)
    requires RunsAsRole(c, a) && RunsAsRole(c, b)
    requires keys == ["timestamp", "planned_values", "prior_state", "resource_changes", "resource_drift", "deferred_changes"]
    ensures forall i :: 1 <= i < 6 ==> NormPlanField(keys[i], Sixfold(c, a)[i]) == NormPlanField(keys[i], Sixfold(c, b)[i])
  {
    hide RunsAsRole, Root, Records, CallerRecord, NormModule, NormRecord, MapSeq;
    PlanKeysDiffer();
    RecordsAgree(c, a, b);
    CallerAgrees(c, a, b);
    RootAgrees(c, a, b);
    UnderKey(c.values, "root_module", Root(c, a), Root(c, b), NormModule);
    UnderKey(c.prior, "values", Obj(c.values["root_module" := Root(c, a)]), Obj(c.values["root_module" := Root(c, b)]), NormValues);
    UnderKey(c.deferred, "resource_change", CallerRecord(c, a), CallerRecord(c, b), NormRecord);
    DeferredAgrees(Obj(c.deferred["resource_change" := CallerRecord(c, a)]), Obj(c.deferred["resource_change" := CallerRecord(c, b)]));
    hide UpdateAt;
  }

  lemma DeferredAgrees(x: Value, y: Value)
    requires NormDeferred(x) == NormDeferred(y)
    ensures NormEach(Arr([x]), NormDeferred) == NormEach(Arr([y]), NormDeferred)
  {
    hide NormDeferred;
    assert MapSeq(NormDeferred, [x]) == MapSeq(NormDeferred, [y]);
  }
}
