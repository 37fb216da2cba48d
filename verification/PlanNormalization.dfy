/** Normalisation of Terraform plans before they are digested. */
module PlanNormalization {
  import opened Text
  import opened Sorting
  import opened Json

  // ----- the two role patterns -----

  const PlanRole := "plan"
  const ApplyRole := "apply"
  const NormalizedRole := "<normalized>"
  const UserIdMarker := "<normalized-caller-role-user-id>"

  datatype RoleArn = RoleArn(partition: string, account: string, session: string)

  predicate PartitionChar(c: char) { 'a' <= c <= 'z' || 'A' <= c <= 'Z' || c == '-' }

  predicate UserIdChar(c: char) { 'A' <= c <= 'Z' || IsDigit(c) }

  predicate ValidArn(r: RoleArn)
  {
    && StartsWith(r.partition, "aws")
    && (forall i :: 0 <= i < |r.partition| ==> PartitionChar(r.partition[i]))
    && |r.account| == 12
    && (forall i :: 0 <= i < 12 ==> IsDigit(r.account[i]))
    && r.session != [] && '/' !in r.session
  }

  function RenderArn(r: RoleArn, role: string): string
  {
    "arn:" + (r.partition + (":sts::" + (r.account + (":assumed-role/github-infra-" + (role + ("/" + r.session))))))
  }

  function SpanOf(s: string, p: char -> bool): (n: nat)
    ensures n <= |s| && forall i :: 0 <= i < n ==> p(s[i])
    ensures n < |s| ==> !p(s[n])
  {
    if s == [] || !p(s[0]) then 0 else 1 + SpanOf(s[1..], p)
  }

  lemma {:induction false} SpanExact(a: string, rest: string, p: char -> bool)
    requires (forall i :: 0 <= i < |a| ==> p(a[i])) && (rest == [] || !p(rest[0]))
    ensures SpanOf(a + rest, p) == |a|
  {
    if a == [] {
      assert a + rest == rest;
    } else {
      assert (a + rest)[1..] == a[1..] + rest;
      SpanExact(a[1..], rest, p);
    }
  }

  /** Drops a required prefix. */
  function Expect(s: string, p: string): (r: Option<string>)
    ensures r.Some? ==> s == p + r.value
  {
    if StartsWith(s, p) then Some(s[|p|..]) else None
  }

  lemma ExpectPrefix(p: string, rest: string)
    ensures Expect(p + rest, p) == Some(rest)
  {
    assert (p + rest)[..|p|] == p && (p + rest)[|p|..] == rest;
  }

  datatype ArnHead = ArnHead(partition: string, account: string, tail: string)

  /** The scan up to the role name. */
  function ScanHead(s: string): (h: Option<ArnHead>)
    ensures h.Some? ==>
              s == "arn:" + (h.value.partition + (":sts::" + (h.value.account + (":assumed-role/github-infra-" + h.value.tail))))
  {
    match Expect(s, "arn:")
    case None => None
    case Some(s1) =>
      var n := SpanOf(s1, PartitionChar);
      match Expect(s1[n..], ":sts::")
      case None => None
      case Some(s2) =>
        if |s2| < 12 then None else
        match Expect(s2[12..], ":assumed-role/github-infra-")
        case None => None
        case Some(tail) =>
          assert s1 == s1[..n] + s1[n..] && s2 == s2[..12] + s2[12..];
          Some(ArnHead(s1[..n], s2[..12], tail))
  }

  /** The regular expression for one role name, as a left-to-right scan. */
  function ScanArn(s: string, role: string): (r: Option<RoleArn>)
    ensures r.Some? ==> ValidArn(r.value) && s == RenderArn(r.value, role)
  {
    match ScanHead(s)
    case None => None
    case Some(h) =>
      match Expect(h.tail, role)
      case None => None
      case Some(rest) =>
        match Expect(rest, "/")
        case None => None
        case Some(session) =>
          var r := RoleArn(h.partition, h.account, session);
          if ValidArn(r) then Some(r) else None
  }

  lemma ScanHeadRendered(r: RoleArn, role: string)
    requires ValidArn(r)
    ensures ScanHead(RenderArn(r, role)) == Some(ArnHead(r.partition, r.account, role + ("/" + r.session)))
  {
    var tail := role + ("/" + r.session);
    var s2 := r.account + (":assumed-role/github-infra-" + tail);
    var s1 := r.partition + (":sts::" + s2);
    ExpectPrefix("arn:", s1);
    SpanExact(r.partition, ":sts::" + s2, PartitionChar);
    assert s1[..|r.partition|] == r.partition && s1[|r.partition|..] == ":sts::" + s2;
    ExpectPrefix(":sts::", s2);
    assert s2[..12] == r.account && s2[12..] == ":assumed-role/github-infra-" + tail;
    ExpectPrefix(":assumed-role/github-infra-", tail);
  }

  lemma ScanRendered(r: RoleArn, role: string)
    requires ValidArn(r)
    ensures ScanArn(RenderArn(r, role), role) == Some(r)
  {
    ScanHeadRendered(r, role);
    hide ScanHead, RenderArn;
    ExpectPrefix(role, "/" + r.session);
    ExpectPrefix("/", r.session);
  }

  /** GITHUB_INFRA_ROLE_ARN.fullmatch: the plan role or the apply role. */
  function MatchArn(s: string): (r: Option<RoleArn>)
    ensures r.Some? ==> ValidArn(r.value) && (s == RenderArn(r.value, PlanRole) || s == RenderArn(r.value, ApplyRole))
  {
    if ScanArn(s, PlanRole).Some? then ScanArn(s, PlanRole) else ScanArn(s, ApplyRole)
  }

  /** An ARN rendered for one role is not read as an ARN of a differently named role. */
  lemma ScanOtherRole(r: RoleArn, role: string, other: string)
    requires ValidArn(r) && role != [] && other != [] && role[0] != other[0]
    ensures ScanArn(RenderArn(r, role), other) == None
  {
    var s := RenderArn(r, role);
    ScanHeadRendered(r, role);
    if ScanArn(s, other).Some? { ScanHeadRendered(ScanArn(s, other).value, other); }
  }

  /** The scan finds every match of the pattern. */
  lemma MatchArnComplete(s: string, r: RoleArn)
    requires ValidArn(r) && (s == RenderArn(r, PlanRole) || s == RenderArn(r, ApplyRole))
    ensures MatchArn(s) == Some(r)
  {
    if s == RenderArn(r, PlanRole) {
      ScanRendered(r, PlanRole);
    } else {
      ScanRendered(r, ApplyRole);
      ScanOtherRole(r, ApplyRole, PlanRole);
    }
  }

  /** ROLE_USER_ID.fullmatch: the part after the role id. */
  function UserSuffix(u: string): (r: Option<string>)
  {
    var n := SpanOf(u, UserIdChar);
    if 0 < n < |u| - 1 && u[n] == ':' && '\n' !in u[n + 1..] then Some(u[n + 1..]) else None
  }

  // ----- caller identity -----

  function ArnOf(v: Value): (r: Option<RoleArn>)
    ensures r.Some? ==> v.Has("arn") && v.Get("arn").Str? && MatchArn(v.Get("arn").s) == r && ValidArn(r.value)
  {
    if v.Get("arn").Str? then MatchArn(v.Get("arn").s) else None
  }

  function UserOf(v: Value): (r: Option<string>)
    ensures r.Some? ==> v.Has("user_id") && v.Get("user_id").Str?
  {
    if v.Get("user_id").Str? then UserSuffix(v.Get("user_id").s) else None
  }

  function MarkedUser(suffix: string): string { UserIdMarker + ":" + suffix }

  /** The body of the loop over candidates in normalize_caller_identity_record. */
  function NormIdentity(v: Value): Value
  {
    match ArnOf(v)
    case None => v
    case Some(r) =>
      var fields := v.fields["arn" := Str(RenderArn(r, NormalizedRole))];
      match UserOf(v)
      case None => Obj(fields)
      case Some(suffix) => Obj(fields["user_id" := Str(MarkedUser(suffix))])
  }

  /** Two identities differ at most by the plan or apply role and that role's id. */
  ghost predicate IdentityEq(a: Value, b: Value)
  {
    a == b ||
    (&& a.Obj? && b.Obj? && a.fields.Keys == b.fields.Keys
     && (forall k :: k in a.fields && k != "arn" && k != "user_id" ==> a.fields[k] == b.fields[k])
     && ArnOf(a).Some? && ArnOf(a) == ArnOf(b)
     && (a.Has("user_id") ==> a.Get("user_id") == b.Get("user_id") || (UserOf(a).Some? && UserOf(a) == UserOf(b))))
  }

  /** The identity does not already carry the marker text. */
  predicate CleanIdentity(v: Value)
  {
    && (v.Get("arn").Str? ==> ScanArn(v.Get("arn").s, NormalizedRole).None?)
    && (v.Get("user_id").Str? ==> !StartsWith(v.Get("user_id").s, UserIdMarker + ":"))
  }

  lemma NormalizedArnIsMarked(r: RoleArn)
    requires ValidArn(r)
    ensures ScanArn(RenderArn(r, NormalizedRole), NormalizedRole) == Some(r)
    ensures MatchArn(RenderArn(r, NormalizedRole)) == None
  {
    ScanRendered(r, NormalizedRole);
    ScanOtherRole(r, NormalizedRole, PlanRole);
    ScanOtherRole(r, NormalizedRole, ApplyRole);
  }

  lemma MarkedUserInjective(p: string, q: string)
    requires MarkedUser(p) == MarkedUser(q)
    ensures p == q
  {
    assert MarkedUser(p)[|UserIdMarker| + 1..] == p;
    assert MarkedUser(q)[|UserIdMarker| + 1..] == q;
  }

  lemma MarkedUserIsMarked(p: string)
    ensures StartsWith(MarkedUser(p), UserIdMarker + ":")
  {
  }

  lemma IdentityIff(a: Value, b: Value)
    requires CleanIdentity(a) && CleanIdentity(b)
    ensures NormIdentity(a) == NormIdentity(b) <==> IdentityEq(a, b)
  {
    hide ScanArn, ValidArn, RenderArn, MatchArn, UserSuffix;
    if NormIdentity(a) == NormIdentity(b) {
      SameNormArn(a, b);
      if ArnOf(a).Some? {
        SameOtherFields(a, b);
        if a.Has("user_id") { SameNormUser(a, b); }
      }
    }
  }

  lemma SameNormArn(a: Value, b: Value)
    requires CleanIdentity(a) && CleanIdentity(b) && NormIdentity(a) == NormIdentity(b)
    ensures ArnOf(a) == ArnOf(b)
    ensures ArnOf(a).None? ==> a == b
  {
    hide ScanArn, ValidArn, RenderArn, MatchArn, UserSuffix;
    if ArnOf(a).Some? {
      NormalizedArnIsMarked(ArnOf(a).value);
      assert NormIdentity(a).Get("arn") == Str(RenderArn(ArnOf(a).value, NormalizedRole));
    }
    if ArnOf(b).Some? {
      NormalizedArnIsMarked(ArnOf(b).value);
      assert NormIdentity(b).Get("arn") == Str(RenderArn(ArnOf(b).value, NormalizedRole));
    }
  }

  lemma OtherFieldsKept(v: Value)
    requires ArnOf(v).Some?
    ensures NormIdentity(v).Obj? && NormIdentity(v).fields.Keys == v.fields.Keys
    ensures forall k :: k in v.fields && k != "arn" && k != "user_id" ==> NormIdentity(v).fields[k] == v.fields[k]
    ensures v.Has("user_id") ==>
              NormIdentity(v).fields["user_id"]
              == (if UserOf(v).Some? then Str(MarkedUser(UserOf(v).value)) else v.fields["user_id"])
  {
    hide ArnOf, UserOf, MarkedUser, RenderArn;
    ArnFound(v);
    UserFound(v);
    var arn, user := "arn", "user_id";
    assert arn != user by { assert |arn| != |user|; }
  }

  lemma ArnFound(v: Value)
    requires ArnOf(v).Some?
    ensures v.Obj? && "arn" in v.fields
  {
    hide MatchArn;
  }

  lemma UserFound(v: Value)
    ensures UserOf(v).Some? ==> v.Obj? && "user_id" in v.fields
  {
    hide UserSuffix;
  }

  lemma SameOtherFields(a: Value, b: Value)
    requires NormIdentity(a) == NormIdentity(b) && ArnOf(a).Some? && ArnOf(b).Some?
    ensures a.fields.Keys == b.fields.Keys
    ensures forall k :: k in a.fields && k != "arn" && k != "user_id" ==> a.fields[k] == b.fields[k]
  {
    OtherFieldsKept(a);
    OtherFieldsKept(b);
    forall k | k in a.fields && k != "arn" && k != "user_id" ensures a.fields[k] == b.fields[k] {
      assert k in b.fields;
      assert NormIdentity(a).fields[k] == NormIdentity(b).fields[k];
    }
  }

  lemma SameNormUser(a: Value, b: Value)
    requires CleanIdentity(a) && CleanIdentity(b) && NormIdentity(a) == NormIdentity(b)
    requires ArnOf(a).Some? && ArnOf(b).Some? && a.Has("user_id") && b.Has("user_id")
    ensures a.Get("user_id") == b.Get("user_id") || (UserOf(a).Some? && UserOf(a) == UserOf(b))
  {
    OtherFieldsKept(a);
    OtherFieldsKept(b);
    if UserOf(a).Some? { MarkedUserIsMarked(UserOf(a).value); }
    if UserOf(b).Some? { MarkedUserIsMarked(UserOf(b).value); }
    if UserOf(a).Some? && UserOf(b).Some? { MarkedUserInjective(UserOf(a).value, UserOf(b).value); }
  }

  lemma NormIdentityIdempotent(v: Value)
    ensures NormIdentity(NormIdentity(v)) == NormIdentity(v)
  {
    hide ScanArn, ValidArn, RenderArn, UserSuffix;
    if ArnOf(v).Some? {
      var r := ArnOf(v).value;
      NormalizedArnIsMarked(r);
      assert NormIdentity(v).Get("arn") == Str(RenderArn(r, NormalizedRole));
      assert ArnOf(NormIdentity(v)) == None;
    }
  }

  // ----- zone lookups -----

  /** zone.pop("permissions", None). */
  function DropPermissions(zone: Value): Value
  {
    if zone.Obj? then Obj(zone.fields - {"permissions"}) else zone
  }

  /** The body of the loop over candidates in normalize_cloudflare_zones_record. */
  function NormLookup(v: Value): Value
  {
    if v.Get("result").Arr? then Obj(v.fields["result" := Arr(MapSeq(DropPermissions, v.Get("result").items))]) else v
  }

  ghost predicate ZoneEq(a: Value, b: Value)
  {
    a == b ||
    (&& a.Obj? && b.Obj?
     && forall k :: k != "permissions" ==> (k in a.fields <==> k in b.fields) && (k in a.fields ==> a.fields[k] == b.fields[k]))
  }

  /** Two lookups differ at most in the permissions of their zones. */
  ghost predicate LookupEq(a: Value, b: Value)
  {
    a == b ||
    (&& a.Obj? && b.Obj? && a.fields.Keys == b.fields.Keys
     && (forall k :: k in a.fields && k != "result" ==> a.fields[k] == b.fields[k])
     && a.Get("result").Arr? && b.Get("result").Arr?
     && |a.Get("result").items| == |b.Get("result").items|
     && forall i :: 0 <= i < |a.Get("result").items| ==> ZoneEq(a.Get("result").items[i], b.Get("result").items[i]))
  }

  lemma ZoneIff(a: Value, b: Value)
    ensures DropPermissions(a) == DropPermissions(b) <==> ZoneEq(a, b)
  {
    if a.Obj? && b.Obj? {
      var x, y := a.fields - {"permissions"}, b.fields - {"permissions"};
      if ZoneEq(a, b) {
        assert x.Keys == y.Keys;
        assert x == y;
      }
      if x == y {
        forall k | k != "permissions"
          ensures (k in a.fields <==> k in b.fields) && (k in a.fields ==> a.fields[k] == b.fields[k])
        {
          assert k in a.fields <==> k in x;
          assert k in b.fields <==> k in y;
          if k in x { assert x[k] == a.fields[k] && y[k] == b.fields[k]; }
        }
      }
    }
  }

  lemma LookupIff(a: Value, b: Value)
    ensures NormLookup(a) == NormLookup(b) <==> LookupEq(a, b)
  {
    var ra, rb := a.Get("result"), b.Get("result");
    if ra.Arr? && rb.Arr? {
      ZonesIff(ra.items, rb.items);
      EntryIff(a.fields, b.fields, "result", Arr(MapSeq(DropPermissions, ra.items)), Arr(MapSeq(DropPermissions, rb.items)));
      hide DropPermissions, ZoneEq;
    } else {
      hide DropPermissions, ZoneEq;
      if ra.Arr? { assert NormLookup(a).Get("result").Arr?; }
      if rb.Arr? { assert NormLookup(b).Get("result").Arr?; }
    }
  }

  lemma ZonesIff(xs: seq<Value>, ys: seq<Value>)
    ensures MapSeq(DropPermissions, xs) == MapSeq(DropPermissions, ys)
       <==> |xs| == |ys| && forall i :: 0 <= i < |xs| ==> ZoneEq(xs[i], ys[i])
  {
    forall i | 0 <= i < |xs| && i < |ys|
      ensures MapSeq(DropPermissions, xs)[i] == MapSeq(DropPermissions, ys)[i] <==> ZoneEq(xs[i], ys[i])
    {
      ZoneIff(xs[i], ys[i]);
    }
  }

  lemma NormLookupIdempotent(v: Value)
    ensures NormLookup(NormLookup(v)) == NormLookup(v)
  {
    if v.Get("result").Arr? {
      var xs := v.Get("result").items;
      forall i | 0 <= i < |xs| ensures DropPermissions(DropPermissions(xs[i])) == DropPermissions(xs[i]) {
        if xs[i].Obj? { assert xs[i].fields - {"permissions"} - {"permissions"} == xs[i].fields - {"permissions"}; }
      }
      assert MapSeq(DropPermissions, MapSeq(DropPermissions, xs)) == MapSeq(DropPermissions, xs);
    }
  }

  // ----- the parts of a record that hold candidates -----

  /** Applies g to the direct entries and to the named phases of "change". */
  function NormParts(v: Value, direct: set<string>, phases: set<string>, g: Value -> Value): (r: Value)
    requires v.Obj?
    ensures r.Obj? && r.fields.Keys == v.fields.Keys
  {
    Obj(map k | k in v.fields ::
      if k in direct then g(v.fields[k])
      else if k == "change" then NormPhases(v.fields[k], phases, g)
      else v.fields[k])
  }

  function NormPhases(v: Value, phases: set<string>, g: Value -> Value): Value
  {
    if v.Obj? then Obj(map k | k in v.fields :: if k in phases then g(v.fields[k]) else v.fields[k]) else v
  }

  ghost predicate PhasesEq(a: Value, b: Value, phases: set<string>, eq: (Value, Value) -> bool)
  {
    a == b ||
    (&& a.Obj? && b.Obj? && a.fields.Keys == b.fields.Keys
     && forall k :: k in a.fields ==> if k in phases then eq(a.fields[k], b.fields[k]) else a.fields[k] == b.fields[k])
  }

  ghost predicate PartsEq(a: Value, b: Value, direct: set<string>, phases: set<string>, eq: (Value, Value) -> bool)
    requires a.Obj? && b.Obj?
  {
    && a.fields.Keys == b.fields.Keys
    && forall k :: k in a.fields ==>
         if k in direct then eq(a.fields[k], b.fields[k])
         else if k == "change" then PhasesEq(a.fields[k], b.fields[k], phases, eq)
         else a.fields[k] == b.fields[k]
  }

  predicate CleanParts(v: Value, direct: set<string>, phases: set<string>, ok: Value -> bool)
  {
    v.Obj? ==>
      && (forall k :: k in v.fields && k in direct ==> ok(v.fields[k]))
      && ("change" in v.fields && v.fields["change"].Obj? ==>
            forall k :: k in v.fields["change"].fields && k in phases ==> ok(v.fields["change"].fields[k]))
  }

  /** eq is exactly equality of normal forms, on values that satisfy ok. */
  ghost predicate Decides(g: Value -> Value, eq: (Value, Value) -> bool, ok: Value -> bool)
  {
    forall x, y :: ok(x) && ok(y) ==> (g(x) == g(y) <==> eq(x, y))
  }

  lemma PhasesIff(a: Value, b: Value, phases: set<string>, g: Value -> Value, eq: (Value, Value) -> bool, ok: Value -> bool)
    requires Decides(g, eq, ok) && a.Obj? && b.Obj?
    requires forall k :: k in a.fields && k in phases ==> ok(a.fields[k])
    requires forall k :: k in b.fields && k in phases ==> ok(b.fields[k])
    ensures NormPhases(a, phases, g) == NormPhases(b, phases, g) <==> PhasesEq(a, b, phases, eq)
  {
    var x, y := NormPhases(a, phases, g), NormPhases(b, phases, g);
    assert x.fields.Keys == a.fields.Keys && y.fields.Keys == b.fields.Keys;
    if x == y {
      forall k | k in a.fields
        ensures if k in phases then eq(a.fields[k], b.fields[k]) else a.fields[k] == b.fields[k]
      {
        assert k in b.fields && x.fields[k] == y.fields[k];
      }
    }
  }

  lemma PartsIff(a: Value, b: Value, direct: set<string>, phases: set<string>,
                 g: Value -> Value, eq: (Value, Value) -> bool, ok: Value -> bool)
    requires Decides(g, eq, ok) && a.Obj? && b.Obj?
    requires CleanParts(a, direct, phases, ok) && CleanParts(b, direct, phases, ok)
    ensures NormParts(a, direct, phases, g) == NormParts(b, direct, phases, g) <==> PartsEq(a, b, direct, phases, eq)
  {
    var x, y := NormParts(a, direct, phases, g), NormParts(b, direct, phases, g);
    if "change" in a.fields && "change" in b.fields {
      var ca, cb := a.fields["change"], b.fields["change"];
      if ca.Obj? && cb.Obj? { PhasesIff(ca, cb, phases, g, eq, ok); }
      assert NormPhases(ca, phases, g) == NormPhases(cb, phases, g) <==> PhasesEq(ca, cb, phases, eq);
    }
    hide NormPhases, PhasesEq;
    if x == y {
      forall k | k in a.fields
        ensures if k in direct then eq(a.fields[k], b.fields[k])
                else if k == "change" then PhasesEq(a.fields[k], b.fields[k], phases, eq)
                else a.fields[k] == b.fields[k]
      {
        assert k in b.fields && x.fields[k] == y.fields[k];
      }
    }
  }

  // ----- records -----

  const CallerAddress := "data.aws_caller_identity.current"
  const ZonesAddress := "data.cloudflare_zones.application"
  const CallerDirect := {"values"}
  const CallerPhases := {"before", "after"}
  const ZonesDirect := {"values", "sensitive_values"}
  const ZonesPhases := {"before", "after", "before_sensitive", "after_sensitive", "after_unknown"}

  predicate IsRecord(r: Value, address: string, kind: string, name: string)
  {
    && r.Obj?
    && r.Get("address") == Str(address) && r.Get("mode") == Str("data")
    && r.Get("type") == Str(kind) && r.Get("name") == Str(name)
  }

  predicate IsCaller(r: Value) { IsRecord(r, CallerAddress, "aws_caller_identity", "current") }

  predicate IsZones(r: Value) { IsRecord(r, ZonesAddress, "cloudflare_zones", "application") }

  /** normalize_caller_identity_record. */
  function NormCaller(r: Value): Value
  {
    if IsCaller(r) then NormParts(r, CallerDirect, CallerPhases, NormIdentity) else r
  }

  /** normalize_cloudflare_zones_record. */
  function NormZones(r: Value): Value
  {
    if IsZones(r) then NormParts(r, ZonesDirect, ZonesPhases, NormLookup) else r
  }

  function NormRecord(r: Value): Value { NormZones(NormCaller(r)) }

  /** Two records differ at most by the caller's role, or by the permissions of looked-up zones. */
  ghost predicate RecordEq(a: Value, b: Value)
  {
    || a == b
    || (IsCaller(a) && IsCaller(b) && PartsEq(a, b, CallerDirect, CallerPhases, IdentityEq))
    || (IsZones(a) && IsZones(b) && PartsEq(a, b, ZonesDirect, ZonesPhases, LookupEq))
  }

  predicate CleanRecord(r: Value) { IsCaller(r) ==> CleanParts(r, CallerDirect, CallerPhases, CleanIdentity) }

  lemma NormPartsKeepsKind(r: Value, direct: set<string>, phases: set<string>, g: Value -> Value,
                           address: string, kind: string, name: string)
    requires r.Obj? && direct <= ZonesDirect
    ensures IsRecord(NormParts(r, direct, phases, g), address, kind, name) <==> IsRecord(r, address, kind, name)
  {
    var n := NormParts(r, direct, phases, g);
    hide NormPhases;
    forall k | k in {"address", "mode", "type", "name"} ensures n.Get(k) == r.Get(k) {
      if k in r.fields { assert n.fields[k] == r.fields[k]; }
    }
    assert n.Get("address") == r.Get("address") && n.Get("mode") == r.Get("mode");
    assert n.Get("type") == r.Get("type") && n.Get("name") == r.Get("name");
  }

  /** Either normaliser leaves alone what it and the other one test. */
  lemma NormRecordCases(r: Value)
    ensures IsCaller(r) ==> !IsZones(r)
    ensures NormRecord(r) == if IsCaller(r) then NormParts(r, CallerDirect, CallerPhases, NormIdentity)
                             else if IsZones(r) then NormParts(r, ZonesDirect, ZonesPhases, NormLookup)
                             else r
    ensures IsCaller(NormRecord(r)) <==> IsCaller(r)
    ensures IsZones(NormRecord(r)) <==> IsZones(r)
  {
    hide NormParts;
    if IsCaller(r) {
      assert CallerDirect <= ZonesDirect;
      NormPartsKeepsKind(r, CallerDirect, CallerPhases, NormIdentity, CallerAddress, "aws_caller_identity", "current");
      NormPartsKeepsKind(r, CallerDirect, CallerPhases, NormIdentity, ZonesAddress, "cloudflare_zones", "application");
    } else if IsZones(r) {
      NormPartsKeepsKind(r, ZonesDirect, ZonesPhases, NormLookup, CallerAddress, "aws_caller_identity", "current");
      NormPartsKeepsKind(r, ZonesDirect, ZonesPhases, NormLookup, ZonesAddress, "cloudflare_zones", "application");
    }
  }

  lemma IdentityDecided()
    ensures Decides(NormIdentity, IdentityEq, CleanIdentity)
  {
    hide NormIdentity, IdentityEq, CleanIdentity;
    forall x, y | CleanIdentity(x) && CleanIdentity(y) ensures NormIdentity(x) == NormIdentity(y) <==> IdentityEq(x, y) {
      IdentityIff(x, y);
    }
  }

  predicate Anything(v: Value) { true }

  lemma LookupDecided()
    ensures Decides(NormLookup, LookupEq, Anything)
  {
    hide NormLookup, LookupEq;
    forall x: Value, y: Value ensures NormLookup(x) == NormLookup(y) <==> LookupEq(x, y) { LookupIff(x, y); }
  }

  lemma RecordIff(a: Value, b: Value)
    requires CleanRecord(a) && CleanRecord(b)
    ensures NormRecord(a) == NormRecord(b) <==> RecordEq(a, b)
  {
    NormRecordCases(a);
    NormRecordCases(b);
    if IsCaller(a) && IsCaller(b) {
      IdentityDecided();
      PartsIff(a, b, CallerDirect, CallerPhases, NormIdentity, IdentityEq, CleanIdentity);
    } else if IsZones(a) && IsZones(b) {
      LookupDecided();
      PartsIff(a, b, ZonesDirect, ZonesPhases, NormLookup, LookupEq, Anything);
    }
    hide NormRecord, NormParts, PartsEq, IsRecord;
  }

  // ----- well-formedness and idempotence of records -----

  ghost predicate KeepsWellFormed(g: Value -> Value) { forall v :: WellFormed(v) ==> WellFormed(g(v)) }

  ghost predicate Idempotent(g: Value -> Value) { forall v :: g(g(v)) == g(v) }

  lemma IdentityKeepsWellFormed()
    ensures KeepsWellFormed(NormIdentity)
  {
    hide MatchArn, UserSuffix, RenderArn, ValidArn;
    forall v | WellFormed(v) ensures WellFormed(NormIdentity(v)) { }
  }

  lemma LookupKeepsWellFormed()
    ensures KeepsWellFormed(NormLookup)
  {
    forall v | WellFormed(v) ensures WellFormed(NormLookup(v)) {
      if v.Get("result").Arr? {
        var xs := v.Get("result").items;
        assert WellFormed(Arr(xs));
        forall z | z in MapSeq(DropPermissions, xs) ensures WellFormed(z) {
          var i :| 0 <= i < |xs| && z == DropPermissions(xs[i]);
          assert WellFormed(xs[i]);
        }
        assert WellFormed(Arr(MapSeq(DropPermissions, xs)));
      }
    }
  }

  lemma IdentityIsIdempotent()
    ensures Idempotent(NormIdentity)
  {
    hide NormIdentity;
    forall v: Value ensures NormIdentity(NormIdentity(v)) == NormIdentity(v) { NormIdentityIdempotent(v); }
  }

  lemma LookupIsIdempotent()
    ensures Idempotent(NormLookup)
  {
    hide NormLookup;
    forall v: Value ensures NormLookup(NormLookup(v)) == NormLookup(v) { NormLookupIdempotent(v); }
  }

  lemma NormPartsWellFormed(r: Value, direct: set<string>, phases: set<string>, g: Value -> Value)
    requires r.Obj? && WellFormed(r) && KeepsWellFormed(g)
    ensures WellFormed(NormParts(r, direct, phases, g))
  {
    var n := NormParts(r, direct, phases, g);
    forall k | k in n.fields ensures WellFormed(n.fields[k]) {
      assert WellFormed(r.fields[k]);
    }
  }

  lemma NormRecordWellFormed(r: Value)
    requires WellFormed(r)
    ensures WellFormed(NormRecord(r))
  {
    NormRecordCases(r);
    hide NormParts, NormRecord;
    if IsCaller(r) {
      IdentityKeepsWellFormed();
      NormPartsWellFormed(r, CallerDirect, CallerPhases, NormIdentity);
    } else if IsZones(r) {
      LookupKeepsWellFormed();
      NormPartsWellFormed(r, ZonesDirect, ZonesPhases, NormLookup);
    }
  }

  lemma NormPartsIdempotent(r: Value, direct: set<string>, phases: set<string>, g: Value -> Value)
    requires r.Obj? && Idempotent(g)
    ensures NormParts(NormParts(r, direct, phases, g), direct, phases, g) == NormParts(r, direct, phases, g)
  {
    var n := NormParts(r, direct, phases, g);
    forall k | k in r.fields ensures NormParts(n, direct, phases, g).fields[k] == n.fields[k] {
      if k !in direct && k == "change" { NormPhasesIdempotent(r.fields[k], phases, g); }
    }
  }

  lemma NormPhasesIdempotent(v: Value, phases: set<string>, g: Value -> Value)
    requires Idempotent(g)
    ensures NormPhases(NormPhases(v, phases, g), phases, g) == NormPhases(v, phases, g)
  {
  }

  lemma NormRecordIdempotent(r: Value)
    ensures NormRecord(NormRecord(r)) == NormRecord(r)
  {
    NormRecordCases(r);
    NormRecordCases(NormRecord(r));
    hide NormParts, NormRecord, NormIdentity, NormLookup;
    IdentityIsIdempotent();
    LookupIsIdempotent();
    if IsCaller(r) {
      NormPartsIdempotent(r, CallerDirect, CallerPhases, NormIdentity);
    } else if IsZones(r) {
      NormPartsIdempotent(r, ZonesDirect, ZonesPhases, NormLookup);
    }
  }

  // ----- modules -----

  function SortByText(items: seq<Value>): (r: seq<Value>)
    ensures multiset(r) == multiset(items)
  {
    Sort(items, PrintLeq)
  }

  function NormResources(v: Value): Value
  {
    if v.Arr? then Arr(SortByText(MapSeq(NormRecord, v.items))) else v
  }

  /** normalize_module. */
  function NormModule(m: Value): Value
    decreases m, 1
  {
    if !m.Obj? then m
    else
      Obj(map k | k in m.fields ::
        if k == "resources" then NormResources(m.fields[k])
        else if k == "child_modules" then NormChildren(m.fields[k])
        else m.fields[k])
  }

  function NormChildren(v: Value): Value
    decreases v, 0
  {
    if v.Arr? then Arr(SortByText(NormModules(v.items))) else v
  }

  function NormModules(ms: seq<Value>): (r: seq<Value>)
    ensures |r| == |ms| && forall i :: 0 <= i < |ms| ==> r[i] == NormModule(ms[i])
    decreases ms
  {
    if ms == [] then [] else [NormModule(ms[0])] + NormModules(ms[1..])
  }

  /** zs is a reordering of ys, as long as xs. */
  ghost predicate ReorderedTo(xs: seq<Value>, ys: seq<Value>, zs: seq<Value>)
  {
    |zs| == |xs| && multiset(zs) == multiset(ys)
  }

  ghost predicate RecordsEq(xs: seq<Value>, ys: seq<Value>)
  {
    |xs| == |ys| && forall i :: 0 <= i < |xs| ==> RecordEq(xs[i], ys[i])
  }

  ghost predicate ResourcesEq(a: Value, b: Value)
  {
    a == b ||
    (&& a.Arr? && b.Arr?
     && exists zs :: ReorderedTo(a.items, b.items, zs) && RecordsEq(a.items, zs))
  }

  /** Two modules differ at most in the order of resources and of child modules, at every depth, and as RecordEq. */
  ghost predicate ModuleEq(a: Value, b: Value)
    decreases a, 1
  {
    a == b ||
    (&& a.Obj? && b.Obj? && a.fields.Keys == b.fields.Keys
     && forall k :: k in a.fields ==>
          if k == "resources" then ResourcesEq(a.fields[k], b.fields[k])
          else if k == "child_modules" then ChildrenEq(a.fields[k], b.fields[k])
          else a.fields[k] == b.fields[k])
  }

  ghost predicate ChildrenEq(a: Value, b: Value)
    decreases a, 0
  {
    a == b ||
    (&& a.Arr? && b.Arr?
     && exists zs :: ReorderedTo(a.items, b.items, zs) && ModulesEq(a.items, zs))
  }

  ghost predicate ModulesEq(xs: seq<Value>, ys: seq<Value>)
    decreases xs
  {
    |xs| == |ys| && forall i :: 0 <= i < |xs| ==> ModuleEq(xs[i], ys[i])
  }

  predicate CleanModule(m: Value)
  {
    m.Obj? ==>
      && (m.Get("resources").Arr? ==> forall x :: x in m.Get("resources").items ==> CleanRecord(x))
      && ("child_modules" in m.fields && m.fields["child_modules"].Arr? ==>
            forall x :: x in m.fields["child_modules"].items ==> CleanModule(x))
  }

  lemma SortByTextCanonical(xs: seq<Value>, ys: seq<Value>)
    requires forall x :: x in xs ==> WellFormed(x)
    ensures SortByText(xs) == SortByText(ys) <==> multiset(xs) == multiset(ys)
  {
    PrintLeqIsTotal();
    PrintLeqIsStrict(xs);
    SortCanonical(xs, ys, PrintLeq);
  }

  lemma RecordsIff(xs: seq<Value>, ys: seq<Value>)
    requires |xs| == |ys| && forall x :: x in xs || x in ys ==> CleanRecord(x)
    ensures RecordsEq(xs, ys) <==> forall i :: 0 <= i < |xs| ==> NormRecord(xs[i]) == NormRecord(ys[i])
  {
    hide CleanRecord, NormRecord, RecordEq;
    forall i | 0 <= i < |xs| ensures RecordEq(xs[i], ys[i]) <==> NormRecord(xs[i]) == NormRecord(ys[i]) {
      RecordIff(xs[i], ys[i]);
    }
  }

  lemma NormRecordsWellFormed(xs: seq<Value>)
    requires forall x :: x in xs ==> WellFormed(x)
    ensures forall x :: x in MapSeq(NormRecord, xs) ==> WellFormed(x)
  {
    hide WellFormed, NormRecord;
    forall x | x in MapSeq(NormRecord, xs) ensures WellFormed(x) {
      var i :| 0 <= i < |xs| && x == NormRecord(xs[i]);
      NormRecordWellFormed(xs[i]);
    }
  }

  lemma ResourcesIff(a: Value, b: Value)
    requires a.Arr? && b.Arr? && forall x :: x in a.items ==> WellFormed(x)
    requires forall x :: x in a.items || x in b.items ==> CleanRecord(x)
    ensures NormResources(a) == NormResources(b) <==> ResourcesEq(a, b)
  {
    var xs, ys := a.items, b.items;
    NormRecordsWellFormed(xs);
    SortByTextCanonical(MapSeq(NormRecord, xs), MapSeq(NormRecord, ys));
    MatchesIffSameNormalForms(NormRecord, xs, ys);
    hide SortByText, NormRecord, CleanRecord, RecordEq, RecordsEq, MapSeq, WellFormed;
    forall zs | ReorderedTo(xs, ys, zs) ensures Aligned(NormRecord, xs, ys, zs) <==> RecordsEq(xs, zs) {
      SameMembers(zs, ys);
      RecordsIff(xs, zs);
    }
    if ResourcesEq(a, b) && a != b {
      var zs :| ReorderedTo(xs, ys, zs) && RecordsEq(xs, zs);
      assert Aligned(NormRecord, xs, ys, zs);
    }
    if Matches(NormRecord, xs, ys) {
      var zs :| Aligned(NormRecord, xs, ys, zs);
      assert ReorderedTo(xs, ys, zs);
    }
  }

  // ----- modules: equal normal forms are exactly equivalent modules -----

  lemma SortedWellFormed(items: seq<Value>)
    requires forall x :: x in items ==> WellFormed(x)
    ensures WellFormed(Arr(SortByText(items)))
  {
    SameMembers(SortByText(items), items);
  }

  lemma {:induction false} NormModuleWellFormed(m: Value)
    requires WellFormed(m)
    ensures WellFormed(NormModule(m))
    decreases m
  {
    if m.Obj? {
      forall k | k in m.fields ensures WellFormed(NormModule(m).fields[k]) {
        NormModuleFieldWellFormed(m, k);
      }
    }
  }

  lemma {:induction false} NormModuleFieldWellFormed(m: Value, k: string)
    requires m.Obj? && WellFormed(m) && k in m.fields
    ensures WellFormed(NormModule(m).fields[k])
    decreases m, 0
  {
    var v := m.fields[k];
    assert WellFormed(v);
    if k == "resources" && v.Arr? {
      NormRecordsWellFormed(v.items);
      SortedWellFormed(MapSeq(NormRecord, v.items));
    } else if k == "child_modules" && v.Arr? {
      forall x | x in NormModules(v.items) ensures WellFormed(x) {
        var i :| 0 <= i < |v.items| && x == NormModule(v.items[i]);
        NormModuleWellFormed(v.items[i]);
      }
      SortedWellFormed(NormModules(v.items));
    }
  }

  lemma NormModulesAsMap(ms: seq<Value>)
    ensures NormModules(ms) == MapSeq(NormModule, ms)
  {
  }

  lemma NormModulesWellFormed(ms: seq<Value>)
    requires forall x :: x in ms ==> WellFormed(x)
    ensures forall x :: x in MapSeq(NormModule, ms) ==> WellFormed(x)
  {
    hide WellFormed, NormModule;
    forall x | x in MapSeq(NormModule, ms) ensures WellFormed(x) {
      var i :| 0 <= i < |ms| && x == NormModule(ms[i]);
      NormModuleWellFormed(ms[i]);
    }
  }

  lemma {:induction false} ModuleIff(a: Value, b: Value)
    requires WellFormed(a) && CleanModule(a) && CleanModule(b)
    ensures NormModule(a) == NormModule(b) <==> ModuleEq(a, b)
    decreases a, 1
  {
    if a.Obj? && b.Obj? && a.fields.Keys == b.fields.Keys {
      forall k | k in a.fields
        ensures NormModule(a).fields[k] == NormModule(b).fields[k] <==> ModuleFieldEq(k, a.fields[k], b.fields[k])
      {
        ModuleFieldIff(a, b, k);
      }
      ModuleByFields(a, b);
    } else if a.Obj? && b.Obj? {
      hide WellFormed, CleanModule;
      assert NormModule(a).fields.Keys == a.fields.Keys && NormModule(b).fields.Keys == b.fields.Keys;
    }
  }

  ghost predicate ModuleFieldEq(k: string, x: Value, y: Value)
  {
    if k == "resources" then ResourcesEq(x, y)
    else if k == "child_modules" then ChildrenEq(x, y)
    else x == y
  }

  lemma ModuleByFields(a: Value, b: Value)
    requires a.Obj? && b.Obj? && a.fields.Keys == b.fields.Keys
    requires forall k :: k in a.fields ==>
               (NormModule(a).fields[k] == NormModule(b).fields[k] <==> ModuleFieldEq(k, a.fields[k], b.fields[k]))
    ensures NormModule(a) == NormModule(b) <==> ModuleEq(a, b)
  {
    hide NormResources, NormChildren, ResourcesEq, ChildrenEq;
    var x, y := NormModule(a), NormModule(b);
    assert x.fields.Keys == a.fields.Keys && y.fields.Keys == b.fields.Keys;
    if a == b {
    } else if x == y {
      forall k | k in a.fields ensures ModuleFieldEq(k, a.fields[k], b.fields[k]) { }
    } else {
      assert x.fields != y.fields;
    }
  }

  lemma {:induction false} ModuleFieldIff(a: Value, b: Value, k: string)
    requires a.Obj? && b.Obj? && k in a.fields && k in b.fields
    requires WellFormed(a) && CleanModule(a) && CleanModule(b)
    ensures NormModule(a).fields[k] == NormModule(b).fields[k] <==> ModuleFieldEq(k, a.fields[k], b.fields[k])
    decreases a, 0
  {
    var x, y := a.fields[k], b.fields[k];
    assert WellFormed(x);
    if k == "resources" {
      if x.Arr? && y.Arr? { ResourcesIff(x, y); }
    } else if k == "child_modules" && x.Arr? && y.Arr? {
      forall i, z | 0 <= i < |x.items| && z in y.items
        ensures NormModule(x.items[i]) == NormModule(z) <==> ModuleEq(x.items[i], z)
      {
        ModuleIff(x.items[i], z);
      }
      NormModulesWellFormed(x.items);
      ChildrenIff(x, y);
    }
  }

  lemma ModulesAligned(xs: seq<Value>, ys: seq<Value>, zs: seq<Value>)
    requires ReorderedTo(xs, ys, zs)
    requires forall i, z :: 0 <= i < |xs| && z in ys ==> (NormModule(xs[i]) == NormModule(z) <==> ModuleEq(xs[i], z))
    ensures Aligned(NormModule, xs, ys, zs) <==> ModulesEq(xs, zs)
  {
    hide NormModule, ModuleEq;
    SameMembers(zs, ys);
    forall i | 0 <= i < |zs| ensures NormModule(xs[i]) == NormModule(zs[i]) <==> ModuleEq(xs[i], zs[i]) {
      assert zs[i] in zs;
    }
  }

  lemma ChildrenIff(a: Value, b: Value)
    requires a.Arr? && b.Arr? && forall x :: x in MapSeq(NormModule, a.items) ==> WellFormed(x)
    requires forall i, z :: 0 <= i < |a.items| && z in b.items ==>
               (NormModule(a.items[i]) == NormModule(z) <==> ModuleEq(a.items[i], z))
    ensures NormChildren(a) == NormChildren(b) <==> ChildrenEq(a, b)
  {
    var xs, ys := a.items, b.items;
    NormModulesAsMap(xs);
    NormModulesAsMap(ys);
    SortByTextCanonical(MapSeq(NormModule, xs), MapSeq(NormModule, ys));
    MatchesIffSameNormalForms(NormModule, xs, ys);
    hide SortByText, NormModule, ModuleEq, ModulesEq, MapSeq, WellFormed;
    forall zs | ReorderedTo(xs, ys, zs) ensures Aligned(NormModule, xs, ys, zs) <==> ModulesEq(xs, zs) {
      ModulesAligned(xs, ys, zs);
    }
    if ChildrenEq(a, b) && a != b {
      var zs :| ReorderedTo(xs, ys, zs) && ModulesEq(xs, zs);
      assert Aligned(NormModule, xs, ys, zs);
    }
    if Matches(NormModule, xs, ys) {
      var zs :| Aligned(NormModule, xs, ys, zs);
      assert ReorderedTo(xs, ys, zs);
    }
  }

  // ----- idempotence of modules -----

  /** Sorting again after normalising again changes nothing, if normalising changes no item. */
  lemma SortedFixedPoint(f: Value -> Value, xs: seq<Value>)
    requires forall x :: x in xs ==> WellFormed(x) && f(x) == x
    ensures SortByText(MapSeq(f, SortByText(xs))) == SortByText(xs)
  {
    SameMembers(SortByText(xs), xs);
    assert MapSeq(f, SortByText(xs)) == SortByText(xs);
    PrintLeqIsTotal();
    PrintLeqIsStrict(xs);
    SortIdempotent(xs, PrintLeq);
  }

  lemma {:induction false} NormModuleIdempotent(m: Value)
    requires WellFormed(m)
    ensures NormModule(NormModule(m)) == NormModule(m)
    decreases m, 1
  {
    if m.Obj? {
      var n := NormModule(m);
      forall k | k in m.fields ensures NormModule(n).fields[k] == n.fields[k] { NormModuleFieldIdempotent(m, k); }
      assert NormModule(n).fields == n.fields;
    }
  }

  lemma {:induction false} NormModuleFieldIdempotent(m: Value, k: string)
    requires m.Obj? && WellFormed(m) && k in m.fields
    ensures NormModule(NormModule(m)).fields[k] == NormModule(m).fields[k]
    decreases m, 0
  {
    var v := m.fields[k];
    assert WellFormed(v);
    if k == "resources" && v.Arr? {
      NormRecordsWellFormed(v.items);
      forall x | x in MapSeq(NormRecord, v.items) ensures NormRecord(x) == x {
        var i :| 0 <= i < |v.items| && x == NormRecord(v.items[i]);
        NormRecordIdempotent(v.items[i]);
      }
      SortedFixedPoint(NormRecord, MapSeq(NormRecord, v.items));
    } else if k == "child_modules" && v.Arr? {
      NormModulesWellFormed(v.items);
      NormModulesAsMap(v.items);
      forall x | x in MapSeq(NormModule, v.items) ensures NormModule(x) == x {
        var i :| 0 <= i < |v.items| && x == NormModule(v.items[i]);
        NormModuleIdempotent(v.items[i]);
      }
      SortedFixedPoint(NormModule, MapSeq(NormModule, v.items));
      NormModulesAsMap(SortByText(NormModules(v.items)));
    }
  }

  // ----- plans -----

  function NormValues(v: Value): Value { UpdateAt(v, "root_module", NormModule) }

  function NormPrior(v: Value): Value { UpdateAt(v, "values", NormValues) }

  function NormDeferred(d: Value): Value { UpdateAt(d, "resource_change", NormRecord) }

  function NormEach(v: Value, f: Value -> Value): Value { if v.Arr? then Arr(MapSeq(f, v.items)) else v }

  function NormAttributes(v: Value): Value { if v.Arr? then Arr(SortByText(v.items)) else v }

  function NormPlanField(k: string, v: Value): Value
  {
    if k == "planned_values" then NormValues(v)
    else if k == "prior_state" then NormPrior(v)
    else if k == "resource_changes" || k == "resource_drift" then NormEach(v, NormRecord)
    else if k == "deferred_changes" then NormEach(v, NormDeferred)
    else if k == "relevant_attributes" then NormAttributes(v)
    else v
  }

  /** plan.pop("timestamp", None) followed by normalize_expected_identity_variation. */
  function NormPlan(p: Value): Value
    requires p.Obj?
  {
    Obj(map k | k in p.fields && k != "timestamp" :: NormPlanField(k, p.fields[k]))
  }

  ghost predicate ValuesEq(a: Value, b: Value) { EqAt(a, b, "root_module", ModuleEq) }

  ghost predicate PriorEq(a: Value, b: Value) { EqAt(a, b, "values", ValuesEq) }

  ghost predicate DeferredEq(a: Value, b: Value) { EqAt(a, b, "resource_change", RecordEq) }

  ghost predicate EachEq(a: Value, b: Value, eq: (Value, Value) -> bool)
  {
    a == b ||
    (&& a.Arr? && b.Arr? && |a.items| == |b.items|
     && forall i :: 0 <= i < |a.items| ==> eq(a.items[i], b.items[i]))
  }

  ghost predicate AttributesEq(a: Value, b: Value)
  {
    a == b || (a.Arr? && b.Arr? && multiset(a.items) == multiset(b.items))
  }

  ghost predicate PlanFieldEq(k: string, a: Value, b: Value)
  {
    if k == "planned_values" then ValuesEq(a, b)
    else if k == "prior_state" then PriorEq(a, b)
    else if k == "resource_changes" || k == "resource_drift" then EachEq(a, b, RecordEq)
    else if k == "deferred_changes" then EachEq(a, b, DeferredEq)
    else if k == "relevant_attributes" then AttributesEq(a, b)
    else a == b
  }

  /**
   * Two plans differ only in their timestamps, in the order of resources and child modules at any depth,
   * in the order of relevant attributes, in the plan or apply role of the caller identity, and in zone permissions.
   */
  ghost predicate PlanEq(p: Value, q: Value)
    requires p.Obj? && q.Obj?
  {
    && (forall k :: k != "timestamp" ==> (k in p.fields <==> k in q.fields))
    && forall k :: k in p.fields && k in q.fields && k != "timestamp" ==> PlanFieldEq(k, p.fields[k], q.fields[k])
  }

  predicate CleanValues(v: Value) { CleanModule(v.Get("root_module")) }

  predicate CleanRecords(v: Value) { v.Arr? ==> forall x :: x in v.items ==> CleanRecord(x) }

  /** No caller identity in a normalised position already carries the marker text. */
  predicate CleanPlan(p: Value)
  {
    && CleanValues(p.Get("planned_values")) && CleanValues(p.Get("prior_state").Get("values"))
    && CleanRecords(p.Get("resource_changes")) && CleanRecords(p.Get("resource_drift"))
    && (p.Get("deferred_changes").Arr? ==>
          forall d :: d in p.Get("deferred_changes").items ==> CleanRecord(d.Get("resource_change")))
  }

  lemma ValuesIff(a: Value, b: Value)
    requires WellFormed(a) && CleanValues(a) && CleanValues(b)
    ensures NormValues(a) == NormValues(b) <==> ValuesEq(a, b)
  {
    WellFormedGet(a, "root_module");
    hide WellFormed, NormModule, CleanModule, ModuleEq;
    if a.Has("root_module") && b.Has("root_module") { ModuleIff(a.Get("root_module"), b.Get("root_module")); }
    UpdateAtIff(a, b, "root_module", NormModule, ModuleEq);
  }

  lemma PriorIff(a: Value, b: Value)
    requires WellFormed(a) && CleanValues(a.Get("values")) && CleanValues(b.Get("values"))
    ensures NormPrior(a) == NormPrior(b) <==> PriorEq(a, b)
  {
    WellFormedGet(a, "values");
    hide WellFormed, NormValues, CleanValues, ValuesEq;
    if a.Has("values") && b.Has("values") { ValuesIff(a.Get("values"), b.Get("values")); }
    UpdateAtIff(a, b, "values", NormValues, ValuesEq);
  }

  lemma DeferredIff(a: Value, b: Value)
    requires CleanRecord(a.Get("resource_change")) && CleanRecord(b.Get("resource_change"))
    ensures NormDeferred(a) == NormDeferred(b) <==> DeferredEq(a, b)
  {
    hide NormRecord, CleanRecord, RecordEq;
    if a.Has("resource_change") && b.Has("resource_change") { RecordIff(a.Get("resource_change"), b.Get("resource_change")); }
    UpdateAtIff(a, b, "resource_change", NormRecord, RecordEq);
  }

  lemma EachIff(a: Value, b: Value, f: Value -> Value, eq: (Value, Value) -> bool)
    requires a.Arr? && b.Arr? ==>
               forall x, y :: x in a.items && y in b.items ==> (f(x) == f(y) <==> eq(x, y))
    ensures NormEach(a, f) == NormEach(b, f) <==> EachEq(a, b, eq)
  {
    if a.Arr? && b.Arr? {
      var xs, ys := a.items, b.items;
      if MapSeq(f, xs) == MapSeq(f, ys) {
        forall i | 0 <= i < |xs| ensures |ys| == |xs| && eq(xs[i], ys[i]) {
          assert MapSeq(f, xs)[i] == MapSeq(f, ys)[i];
        }
      }
    }
  }

  lemma PlanFieldIff(p: Value, q: Value, k: string)
    requires p.Obj? && q.Obj? && k in p.fields && k in q.fields
    requires WellFormed(p) && CleanPlan(p) && CleanPlan(q)
    ensures NormPlanField(k, p.fields[k]) == NormPlanField(k, q.fields[k]) <==> PlanFieldEq(k, p.fields[k], q.fields[k])
  {
    var a, b := p.Get(k), q.Get(k);
    WellFormedGet(p, k);
    hide NormModule, NormRecord, CleanModule, CleanRecord, RecordEq, ModuleEq;
    if k == "planned_values" {
      ValuesIff(a, b);
    } else if k == "prior_state" {
      PriorIff(a, b);
    } else if k == "resource_changes" || k == "resource_drift" {
      hide WellFormed;
      if a.Arr? && b.Arr? {
        forall x, y | x in a.items && y in b.items ensures NormRecord(x) == NormRecord(y) <==> RecordEq(x, y) { RecordIff(x, y); }
      }
      EachIff(a, b, NormRecord, RecordEq);
    } else if k == "deferred_changes" {
      hide WellFormed;
      if a.Arr? && b.Arr? {
        hide NormDeferred, DeferredEq;
        forall x, y | x in a.items && y in b.items ensures NormDeferred(x) == NormDeferred(y) <==> DeferredEq(x, y) { DeferredIff(x, y); }
      }
      EachIff(a, b, NormDeferred, DeferredEq);
    } else if k == "relevant_attributes" {
      if a.Arr? && b.Arr? { SortByTextCanonical(a.items, b.items); }
      hide SortByText;
    }
  }

  ghost predicate FieldsDecided(p: Value, q: Value)
    requires p.Obj? && q.Obj?
  {
    forall k :: k in p.fields && k in q.fields ==>
      (NormPlanField(k, p.fields[k]) == NormPlanField(k, q.fields[k]) <==> PlanFieldEq(k, p.fields[k], q.fields[k]))
  }

  lemma SameNormPlan(p: Value, q: Value)
    requires p.Obj? && q.Obj? && FieldsDecided(p, q) && NormPlan(p) == NormPlan(q)
    ensures PlanEq(p, q)
  {
    hide NormPlanField, PlanFieldEq;
    var x, y := NormPlan(p), NormPlan(q);
    forall k | k != "timestamp"
      ensures k in p.fields <==> k in q.fields
      ensures k in p.fields && k in q.fields ==> PlanFieldEq(k, p.fields[k], q.fields[k])
    {
      assert k in p.fields <==> k in x.fields;
      assert k in q.fields <==> k in y.fields;
      if k in p.fields && k in q.fields { assert x.fields[k] == y.fields[k]; }
    }
  }

  lemma EquivalentPlans(p: Value, q: Value)
    requires p.Obj? && q.Obj? && FieldsDecided(p, q) && PlanEq(p, q)
    ensures NormPlan(p) == NormPlan(q)
  {
    hide NormPlanField, PlanFieldEq;
    var x, y := NormPlan(p), NormPlan(q);
    forall k ensures k in x.fields <==> k in y.fields { }
    assert x.fields.Keys == y.fields.Keys;
    forall k | k in x.fields ensures x.fields[k] == y.fields[k] { }
  }

  /** The main result: two plans have the same normal form exactly when they are equivalent. */
  lemma PlanIff(p: Value, q: Value)
    requires p.Obj? && q.Obj? && WellFormed(p) && CleanPlan(p) && CleanPlan(q)
    ensures NormPlan(p) == NormPlan(q) <==> PlanEq(p, q)
  {
    forall k | k in p.fields && k in q.fields
      ensures NormPlanField(k, p.fields[k]) == NormPlanField(k, q.fields[k]) <==> PlanFieldEq(k, p.fields[k], q.fields[k])
    {
      PlanFieldIff(p, q, k);
    }
    hide NormPlanField, PlanFieldEq, CleanPlan, WellFormed, NormPlan, PlanEq;
    if NormPlan(p) == NormPlan(q) { SameNormPlan(p, q); }
    if PlanEq(p, q) { EquivalentPlans(p, q); }
  }

  // ----- idempotence of plans -----

  lemma NormEachIdempotent(v: Value, f: Value -> Value)
    requires Idempotent(f)
    ensures NormEach(NormEach(v, f), f) == NormEach(v, f)
  {
    if v.Arr? { assert MapSeq(f, MapSeq(f, v.items)) == MapSeq(f, v.items); }
  }

  lemma RecordsAreIdempotent()
    ensures Idempotent(NormRecord) && Idempotent(NormDeferred)
  {
    hide NormRecord;
    forall r: Value ensures NormRecord(NormRecord(r)) == NormRecord(r) { NormRecordIdempotent(r); }
    forall d: Value ensures NormDeferred(NormDeferred(d)) == NormDeferred(d) { UpdateAtIdempotent(d, "resource_change", NormRecord); }
  }

  lemma NormValuesIdempotent(v: Value)
    requires WellFormed(v)
    ensures NormValues(NormValues(v)) == NormValues(v)
  {
    WellFormedGet(v, "root_module");
    hide WellFormed, NormModule;
    NormModuleIdempotent(v.Get("root_module"));
    UpdateAtIdempotent(v, "root_module", NormModule);
  }

  lemma NormPlanFieldIdempotent(k: string, v: Value)
    requires WellFormed(v)
    ensures NormPlanField(k, NormPlanField(k, v)) == NormPlanField(k, v)
  {
    hide NormModule, NormRecord;
    if k == "planned_values" {
      NormValuesIdempotent(v);
    } else if k == "prior_state" {
      WellFormedGet(v, "values");
      NormValuesIdempotent(v.Get("values"));
      UpdateAtIdempotent(v, "values", NormValues);
    } else if k == "resource_changes" || k == "resource_drift" {
      RecordsAreIdempotent();
      NormEachIdempotent(v, NormRecord);
    } else if k == "deferred_changes" {
      RecordsAreIdempotent();
      NormEachIdempotent(v, NormDeferred);
    } else if k == "relevant_attributes" && v.Arr? {
      PrintLeqIsTotal();
      PrintLeqIsStrict(v.items);
      SortIdempotent(v.items, PrintLeq);
    }
  }

  lemma NormPlanIdempotent(p: Value)
    requires p.Obj? && WellFormed(p)
    ensures NormPlan(NormPlan(p)) == NormPlan(p)
  {
    var n := NormPlan(p);
    forall k | k in n.fields ensures NormPlanField(k, n.fields[k]) == n.fields[k] {
      WellFormedGet(p, k);
      NormPlanFieldIdempotent(k, p.fields[k]);
    }
    hide NormPlanField, WellFormed;
    assert NormPlan(n).fields == n.fields;
  }

  // ----- digests -----

  /** The document that keyed_digest prints and authenticates. */
  function DigestDocument(backend: Value, plan: Value): Value
    requires plan.Obj?
  {
    Document(backend, NormPlan(plan))
  }

  lemma NormPlanWellFormed(p: Value)
    requires p.Obj? && WellFormed(p)
    ensures WellFormed(NormPlan(p))
  {
    forall k | k in p.fields ensures WellFormed(NormPlanField(k, p.fields[k])) {
      WellFormedGet(p, k);
      NormPlanFieldWellFormed(k, p.fields[k]);
    }
  }

  lemma NormValuesWellFormed(v: Value)
    requires WellFormed(v)
    ensures WellFormed(NormValues(v))
  {
    WellFormedGet(v, "root_module");
    NormModuleWellFormed(v.Get("root_module"));
    hide WellFormed, NormModule;
    UpdateAtWellFormed(v, "root_module", NormModule);
  }

  lemma NormEachWellFormed(v: Value, f: Value -> Value)
    requires WellFormed(v) && KeepsWellFormed(f)
    ensures WellFormed(NormEach(v, f))
  {
    if v.Arr? {
      forall x | x in MapSeq(f, v.items) ensures WellFormed(x) {
        var i :| 0 <= i < |v.items| && x == f(v.items[i]);
        assert WellFormed(v.items[i]);
      }
    }
  }

  lemma NormPlanFieldWellFormed(k: string, v: Value)
    requires WellFormed(v)
    ensures WellFormed(NormPlanField(k, v))
  {
    hide NormModule, NormRecord;
    if k == "planned_values" {
      NormValuesWellFormed(v);
    } else if k == "prior_state" {
      WellFormedGet(v, "values");
      NormValuesWellFormed(v.Get("values"));
      UpdateAtWellFormed(v, "values", NormValues);
    } else if k == "resource_changes" || k == "resource_drift" {
      forall r | WellFormed(r) ensures WellFormed(NormRecord(r)) { NormRecordWellFormed(r); }
      NormEachWellFormed(v, NormRecord);
    } else if k == "deferred_changes" {
      forall d | WellFormed(d) ensures WellFormed(NormDeferred(d)) {
        WellFormedGet(d, "resource_change");
        NormRecordWellFormed(d.Get("resource_change"));
        UpdateAtWellFormed(d, "resource_change", NormRecord);
      }
      NormEachWellFormed(v, NormDeferred);
    } else if k == "relevant_attributes" && v.Arr? {
      SortedWellFormed(v.items);
    }
  }

  ghost predicate Injective<T(!new)>(mac: string -> T) { forall s, t :: mac(s) == mac(t) ==> s == t }

  /** With an ideal keyed hash, digests agree exactly for the same backend and equivalent plans. */
  lemma DigestIff<T(!new)>(mac: string -> T, b1: Value, p1: Value, b2: Value, p2: Value)
    requires Injective(mac) && p1.Obj? && p2.Obj?
    requires WellFormed(b1) && WellFormed(b2) && WellFormed(p1) && WellFormed(p2) && CleanPlan(p1) && CleanPlan(p2)
    ensures mac(Print(DigestDocument(b1, p1))) == mac(Print(DigestDocument(b2, p2))) <==> b1 == b2 && PlanEq(p1, p2)
  {
    hide NormPlan, PlanEq, CleanPlan, WellFormed, Print;
    NormPlanWellFormed(p1);
    NormPlanWellFormed(p2);
    DocumentWellFormed(b1, NormPlan(p1));
    DocumentWellFormed(b2, NormPlan(p2));
    DocumentIff(b1, NormPlan(p1), b2, NormPlan(p2));
    PrintInjective(DigestDocument(b1, p1), DigestDocument(b2, p2));
    PlanIff(p1, p2);
  }

  function Document(backend: Value, plan: Value): Value { Obj(map["backend" := backend, "plan" := plan]) }

  lemma DocumentWellFormed(b: Value, n: Value)
    requires WellFormed(b) && WellFormed(n)
    ensures WellFormed(Document(b, n))
  {
  }

  lemma DocumentIff(b1: Value, n1: Value, b2: Value, n2: Value)
    ensures Document(b1, n1) == Document(b2, n2) <==> b1 == b2 && n1 == n2
  {
    assert Document(b1, n1).fields["backend"] == b1 && Document(b1, n1).fields["plan"] == n1;
    assert Document(b2, n2).fields["backend"] == b2 && Document(b2, n2).fields["plan"] == n2;
  }

  /**
   * Why CleanPlan is needed: a session that already carries the marker collides with a plan-role session,
   * although its ARN is not an ARN of either role.
   */
  lemma MarkerCollision(r: RoleArn)
    requires ValidArn(r)
    ensures var a := Obj(map["arn" := Str(RenderArn(r, PlanRole))]);
            var b := Obj(map["arn" := Str(RenderArn(r, NormalizedRole))]);
            NormIdentity(a) == NormIdentity(b) && !IdentityEq(a, b)
  {
    MatchArnComplete(RenderArn(r, PlanRole), r);
    NormalizedArnIsMarked(r);
    hide MatchArn, ScanArn, RenderArn, ValidArn, IdentityEq, NormIdentity, ArnOf;
    OnlyArn(RenderArn(r, PlanRole));
    OnlyArn(RenderArn(r, NormalizedRole));
    var a := Obj(map["arn" := Str(RenderArn(r, PlanRole))]);
    var b := Obj(map["arn" := Str(RenderArn(r, NormalizedRole))]);
    Differ(a, b);
  }

  lemma OnlyArn(text: string)
    ensures var v := Obj(map["arn" := Str(text)]);
            && ArnOf(v) == MatchArn(text)
            && NormIdentity(v) == (if MatchArn(text).Some? then Obj(map["arn" := Str(RenderArn(MatchArn(text).value, NormalizedRole))]) else v)
  {
    hide MatchArn, RenderArn, UserSuffix;
    var v := Obj(map["arn" := Str(text)]);
    assert v.Get("arn") == Str(text);
    assert !v.Has("user_id") by { assert |"arn"| != |"user_id"|; }
    if MatchArn(text).Some? { ReplaceOnlyEntry("arn", Str(text), Str(RenderArn(MatchArn(text).value, NormalizedRole))); }
  }

  lemma Differ(a: Value, b: Value)
    requires ArnOf(a).Some? && ArnOf(b).None?
    ensures !IdentityEq(a, b)
  {
    hide ArnOf;
  }

  lemma ReplaceOnlyEntry<K, V>(k: K, x: V, y: V)
    ensures map[k := x][k := y] == map[k := y]
  {
  }

  // ----- the loops of the script -----

  /** The loop over resources: each record is normalised in turn, then the list is sorted. */
  method NormalizeResources(items: seq<Value>) returns (resources: seq<Value>)
    ensures Arr(resources) == NormResources(Arr(items))
  {
    resources := items;
    for i := 0 to |items|
      invariant |resources| == |items|
      invariant forall j :: 0 <= j < i ==> resources[j] == NormRecord(items[j])
      invariant forall j :: i <= j < |items| ==> resources[j] == items[j]
    {
      resources := resources[i := NormCaller(resources[i])];
      resources := resources[i := NormZones(resources[i])];
    }
    assert resources == MapSeq(NormRecord, items);
    resources := Sort(resources, PrintLeq);
  }

  /** normalize_module: resources first, then every child module, each list sorted at the end. */
  method NormalizeModule(module_: Value) returns (r: Value)
    ensures r == NormModule(module_)
    decreases module_, 1
  {
    if !module_.Obj? { return module_; }
    var fields := module_.fields;
    if "resources" in fields && fields["resources"].Arr? {
      var resources := NormalizeResources(fields["resources"].items);
      fields := fields["resources" := Arr(resources)];
    }
    if "child_modules" in module_.fields && module_.fields["child_modules"].Arr? {
      var children := NormalizeChildren(module_.fields["child_modules"].items);
      fields := fields["child_modules" := Arr(children)];
    }
    ListsReplaced(module_);
    r := Obj(fields);
  }

  /** Replacing the two lists is all that normalising a module does. */
  lemma ListsReplaced(m: Value)
    requires m.Obj?
    ensures var f := if m.Get("resources").Arr? then m.fields["resources" := NormResources(m.Get("resources"))] else m.fields;
            var g := if m.Get("child_modules").Arr? then f["child_modules" := NormChildren(m.Get("child_modules"))] else f;
            NormModule(m) == Obj(g)
  {
    NonListsUnchanged();
    hide NormResources, NormChildren;
    TwoEntries(m, "resources", "child_modules", NormResources, NormChildren);
  }

  ghost predicate ListsOnly(f: Value -> Value) { forall v: Value :: !v.Arr? ==> f(v) == v }

  lemma NonListsUnchanged()
    ensures ListsOnly(NormResources) && ListsOnly(NormChildren)
  {
  }

  lemma TwoEntries(m: Value, k: string, l: string, f: Value -> Value, g: Value -> Value)
    requires m.Obj? && k != l && ListsOnly(f) && ListsOnly(g)
    ensures var once := if m.Get(k).Arr? then m.fields[k := f(m.Get(k))] else m.fields;
            (map x | x in m.fields :: if x == k then f(m.fields[x]) else if x == l then g(m.fields[x]) else m.fields[x])
            == (if m.Get(l).Arr? then once[l := g(m.Get(l))] else once)
  {
  }

  method NormalizeChildren(items: seq<Value>) returns (children: seq<Value>)
    ensures Arr(children) == NormChildren(Arr(items))
    decreases items, 0
  {
    children := items;
    for i := 0 to |items|
      invariant |children| == |items|
      invariant forall j :: 0 <= j < i ==> children[j] == NormModule(items[j])
      invariant forall j :: i <= j < |items| ==> children[j] == items[j]
    {
      var child := NormalizeModule(items[i]);
      children := children[i := child];
    }
    assert children == NormModules(items);
    children := Sort(children, PrintLeq);
  }
}