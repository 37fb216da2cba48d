/** Corrections of a member's sporting modalities and canoe craft classes, with their audit log. */
module SportAssignments {
  import opened Text
  import opened Sorting
  import Json

  type Id = nat

  /** uuid.Nil. */
  const Nil: Id := 0

  const Canoeing := "CANOEING"
  const Modalities := {"CANOEING", "KAYAK_POLO", "SUP"}
  const Crafts := {"K1", "K2", "K4", "C1", "C2", "C4"}

  datatype Kind = Sport | Craft
  datatype Action = Added | Removed

  /** One audited change of one code. */
  datatype Change = Change(kind: Kind, action: Action, code: string)

  /** A row of person_sport_assignment_events; its position in the log is its identity. */
  datatype Event = Event(operation: Id, subject: Id, actor: Id, grant: Option<Id>, change: Change, reason: string)

  /** The current sets of one member. */
  datatype Profile = Profile(modalities: set<string>, crafts: set<string>)

  const NoSport := Profile({}, {})

  // ----- replaying a log -----

  function Axis(p: Profile, kind: Kind): set<string> { if kind == Sport then p.modalities else p.crafts }

  function WithAxis(p: Profile, kind: Kind, codes: set<string>): Profile
  {
    if kind == Sport then p.(modalities := codes) else p.(crafts := codes)
  }

  /** What an event says, with no cascade of its own. */
  function Play(p: Profile, c: Change): Profile
  {
    WithAxis(p, c.kind, if c.action == Added then Axis(p, c.kind) + {c.code} else Axis(p, c.kind) - {c.code})
  }

  function PlayAll(p: Profile, cs: seq<Change>): Profile
    decreases cs
  {
    if cs == [] then p else PlayAll(Play(p, cs[0]), cs[1..])
  }

  function Replay(cs: seq<Change>): Profile { PlayAll(NoSport, cs) }

  predicate Coherent(p: Profile) { p.crafts != {} ==> Canoeing in p.modalities }

  /** The event changes the set: it adds an absent code or removes a present one. */
  predicate Effective(p: Profile, c: Change) { c.action == Added <==> c.code !in Axis(p, c.kind) }

  /** Every event is effective and every prefix, played from p, is coherent. */
  predicate GoodFrom(p: Profile, cs: seq<Change>)
    decreases cs
  {
    Coherent(p) && (cs != [] ==> Effective(p, cs[0]) && GoodFrom(Play(p, cs[0]), cs[1..]))
  }

  lemma {:induction false} PlayConcat(p: Profile, a: seq<Change>, b: seq<Change>)
    ensures PlayAll(p, a + b) == PlayAll(PlayAll(p, a), b)
    ensures GoodFrom(p, a) && GoodFrom(PlayAll(p, a), b) ==> GoodFrom(p, a + b)
    decreases a
  {
    if a == [] {
      assert a + b == b;
    } else {
      assert (a + b)[0] == a[0] && (a + b)[1..] == a[1..] + b;
      PlayConcat(Play(p, a[0]), a[1..], b);
    }
  }

  lemma {:induction false} GoodPrefix(p: Profile, cs: seq<Change>, i: nat)
    requires GoodFrom(p, cs) && i <= |cs|
    ensures Coherent(PlayAll(p, cs[..i])) && (i < |cs| ==> Effective(PlayAll(p, cs[..i]), cs[i]))
    decreases cs
  {
    if i > 0 {
      GoodPrefix(Play(p, cs[0]), cs[1..], i - 1);
      assert cs[..i][1..] == cs[1..][..i - 1];
    }
  }

  /** Events other than those about the code leave its presence alone. */
  lemma {:induction false} UntouchedCode(p: Profile, cs: seq<Change>, kind: Kind, code: string)
    requires forall c :: c in cs ==> c.kind != kind || c.code != code
    ensures code in Axis(PlayAll(p, cs), kind) <==> code in Axis(p, kind)
    decreases cs
  {
    if cs != [] { UntouchedCode(Play(p, cs[0]), cs[1..], kind, code); }
  }

  predicate About(c: Change, d: Change) { c.kind == d.kind && c.code == d.code }

  lemma PlayLast(p: Profile, cs: seq<Change>, c: Change)
    ensures PlayAll(p, cs + [c]) == Play(PlayAll(p, cs), c)
  {
    PlayConcat(p, cs, [c]);
    assert [c][1..] == [];
  }

  lemma AfterEvent(cs: seq<Change>, i: nat)
    requires i < |cs|
    ensures cs[i].code in Axis(Replay(cs[..i + 1]), cs[i].kind) <==> cs[i].action == Added
  {
    assert cs[..i + 1] == cs[..i] + [cs[i]];
    PlayLast(NoSport, cs[..i], cs[i]);
  }

  /** In a good log, two consecutive events about one code have different actions. */
  lemma Alternation(cs: seq<Change>, i: nat, j: nat)
    requires GoodFrom(NoSport, cs) && i < j < |cs| && About(cs[i], cs[j])
    requires forall k :: i < k < j ==> !About(cs[k], cs[j])
    ensures cs[i].action != cs[j].action
  {
    var between := cs[i + 1..j];
    assert cs[..j] == cs[..i + 1] + between;
    PlayConcat(NoSport, cs[..i + 1], between);
    hide PlayAll, Play;
    UntouchedCode(Replay(cs[..i + 1]), between, cs[j].kind, cs[j].code);
    AfterEvent(cs, i);
    GoodPrefix(NoSport, cs, j);
  }

  lemma FirstIsAddition(cs: seq<Change>, j: nat)
    requires GoodFrom(NoSport, cs) && j < |cs| && forall k :: 0 <= k < j ==> !About(cs[k], cs[j])
    ensures cs[j].action == Added
  {
    GoodPrefix(NoSport, cs, j);
    UntouchedCode(NoSport, cs[..j], cs[j].kind, cs[j].code);
  }

  // ----- the changes of one correction -----

  function Tagged(kind: Kind, action: Action, codes: seq<string>): (r: seq<Change>)
    ensures |r| == |codes| && forall i :: 0 <= i < |r| ==> r[i] == Change(kind, action, codes[i])
  {
    seq(|codes|, i requires 0 <= i < |codes| => Change(kind, action, codes[i]))
  }

  /** Sorted removals of crafts that lose their modality, then sorted removals, then sorted additions. */
  function Changes(p: Profile, kind: Kind, desired: set<string>): seq<Change>
  {
    (if DropsCanoeing(p, kind, desired) then InOrder(Craft, Removed, p.crafts) else [])
    + InOrder(kind, Removed, Axis(p, kind) - desired)
    + InOrder(kind, Added, desired - Axis(p, kind))
  }

  /** One event per code, in code order. */
  function InOrder(kind: Kind, action: Action, codes: set<string>): seq<Change>
  {
    Tagged(kind, action, Json.SortedKeys(codes))
  }

  predicate DropsCanoeing(p: Profile, kind: Kind, desired: set<string>)
  {
    kind == Sport && Canoeing in p.modalities && Canoeing !in desired
  }

  /** The sets that the correction asks for. */
  function Target(p: Profile, kind: Kind, desired: set<string>): Profile
  {
    var q := WithAxis(p, kind, desired);
    if DropsCanoeing(p, kind, desired) then q.(crafts := {}) else q
  }

  /** Axis after a segment. */
  function Moved(codes: set<string>, action: Action, delta: set<string>): set<string>
  {
    if action == Added then codes + delta else codes - delta
  }

  /** The segment may run from p: its codes can change, and no prefix breaks coherence. */
  ghost predicate CanRun(p: Profile, kind: Kind, action: Action, codes: seq<string>)
  {
    && Coherent(p) && Distinct(codes)
    && (forall c :: c in codes ==> (action == Removed <==> c in Axis(p, kind)))
    && (kind == Sport && action == Removed && p.crafts != {} ==> Canoeing !in codes)
    && (kind == Craft && action == Added && codes != [] ==> Canoeing in p.modalities)
  }

  lemma OneChange(p: Profile, kind: Kind, action: Action, codes: seq<string>)
    requires codes != [] && CanRun(p, kind, action, codes)
    ensures CanRun(Play(p, Change(kind, action, codes[0])), kind, action, codes[1..])
    ensures Effective(p, Change(kind, action, codes[0]))
  {
    assert codes[0] in codes;
    assert forall c :: c in codes[1..] ==> c in codes && c != codes[0];
  }

  lemma {:induction false} Segment(p: Profile, kind: Kind, action: Action, codes: seq<string>)
    requires CanRun(p, kind, action, codes)
    ensures GoodFrom(p, Tagged(kind, action, codes))
    ensures PlayAll(p, Tagged(kind, action, codes)) == WithAxis(p, kind, Moved(Axis(p, kind), action, Elements(codes)))
    decreases codes
  {
    var cs := Tagged(kind, action, codes);
    if codes == [] {
      assert cs == [];
    } else {
      assert cs[1..] == Tagged(kind, action, codes[1..]);
      OneChange(p, kind, action, codes);
      hide CanRun;
      var q := Play(p, cs[0]);
      Segment(q, kind, action, codes[1..]);
      ElementsCons(codes);
      assert Moved(Axis(q, kind), action, Elements(codes[1..])) == Moved(Axis(p, kind), action, Elements(codes));
    }
  }

  lemma ElementsCons(codes: seq<string>)
    requires codes != []
    ensures Elements(codes) == {codes[0]} + Elements(codes[1..])
  {
    assert codes == [codes[0]] + codes[1..];
  }

  /** A sorted segment over a whole set of codes. */
  lemma SortedSegment(p: Profile, kind: Kind, action: Action, codes: set<string>)
    requires Coherent(p)
    requires if action == Removed then codes <= Axis(p, kind) else codes !! Axis(p, kind)
    requires kind == Sport && action == Removed && p.crafts != {} ==> Canoeing !in codes
    requires kind == Craft && action == Added && codes != {} ==> Canoeing in p.modalities
    ensures var cs := InOrder(kind, action, codes);
            && GoodFrom(p, cs)
            && PlayAll(p, cs) == WithAxis(p, kind, Moved(Axis(p, kind), action, codes))
            && Coherent(PlayAll(p, cs))
  {
    var keys := Json.SortedKeys(codes);
    assert Elements(keys) == codes;
    Segment(p, kind, action, keys);
    LastCoherent(p, Tagged(kind, action, keys));
  }

  /** The profile after the crafts of a dropped modality are gone. */
  function Cascaded(p: Profile, kind: Kind, desired: set<string>): Profile
  {
    if DropsCanoeing(p, kind, desired) then p.(crafts := {}) else p
  }

  lemma CascadeSegment(p: Profile, kind: Kind, desired: set<string>)
    requires Coherent(p)
    ensures var a := if DropsCanoeing(p, kind, desired) then InOrder(Craft, Removed, p.crafts) else [];
            GoodFrom(p, a) && PlayAll(p, a) == Cascaded(p, kind, desired) && Coherent(Cascaded(p, kind, desired))
  {
    if DropsCanoeing(p, kind, desired) { SortedSegment(p, Craft, Removed, p.crafts); }
  }

  lemma ReplacementSegments(p: Profile, kind: Kind, desired: set<string>)
    requires Coherent(p) && (kind == Craft && desired != {} ==> Canoeing in p.modalities)
    requires !DropsCanoeing(p, kind, desired) || p.crafts == {}
    ensures var b := InOrder(kind, Removed, Axis(p, kind) - desired);
            var c := InOrder(kind, Added, desired - Axis(p, kind));
            GoodFrom(p, b + c) && PlayAll(p, b + c) == WithAxis(p, kind, desired)
  {
    var removed, added := Axis(p, kind) - desired, desired - Axis(p, kind);
    var b, c := InOrder(kind, Removed, removed), InOrder(kind, Added, added);
    hide GoodFrom, PlayAll, Play, InOrder;
    SortedSegment(p, kind, Removed, removed);
    var q := WithAxis(p, kind, Axis(p, kind) - removed);
    assert q.crafts == p.crafts || kind == Craft;
    assert Axis(q, kind) + added == desired;
    SortedSegment(q, kind, Added, added);
    PlayConcat(p, b, c);
  }

  /** Playing the changes of a correction is safe at every step and reaches its target. */
  lemma ChangesReachTarget(p: Profile, kind: Kind, desired: set<string>)
    requires Coherent(p) && (kind == Craft && desired != {} ==> Canoeing in p.modalities)
    ensures GoodFrom(p, Changes(p, kind, desired)) && PlayAll(p, Changes(p, kind, desired)) == Target(p, kind, desired)
    ensures Coherent(Target(p, kind, desired))
  {
    var a := if DropsCanoeing(p, kind, desired) then InOrder(Craft, Removed, p.crafts) else [];
    var q := Cascaded(p, kind, desired);
    assert Axis(q, kind) == Axis(p, kind);
    var b := InOrder(kind, Removed, Axis(p, kind) - desired);
    var c := InOrder(kind, Added, desired - Axis(p, kind));
    hide GoodFrom, PlayAll, Play, InOrder;
    CascadeSegment(p, kind, desired);
    ReplacementSegments(q, kind, desired);
    ThreeSegments(p, a, b, c);
  }

  lemma ThreeSegments(p: Profile, a: seq<Change>, b: seq<Change>, c: seq<Change>)
    requires GoodFrom(p, a) && GoodFrom(PlayAll(p, a), b + c)
    ensures GoodFrom(p, a + b + c) && PlayAll(p, a + b + c) == PlayAll(PlayAll(p, a), b + c)
    ensures Coherent(PlayAll(p, a + b + c))
  {
    hide GoodFrom, PlayAll;
    PlayConcat(p, a, b + c);
    assert a + b + c == a + (b + c);
    LastCoherent(p, a + b + c);
  }

  lemma {:induction false} LastCoherent(p: Profile, cs: seq<Change>)
    requires GoodFrom(p, cs)
    ensures Coherent(PlayAll(p, cs))
  {
    GoodPrefix(p, cs, |cs|);
    assert cs[..|cs|] == cs;
  }

  // ----- the tables -----

  /** The rows of the two selection tables and the append-only event log. */
  datatype Tables = Tables(modalities: set<(Id, string)>, crafts: set<(Id, string)>, events: seq<Event>)
  {
    function ProfileOf(m: Id): Profile
    {
      Profile(set r | r in modalities && r.0 == m :: r.1, set r | r in crafts && r.0 == m :: r.1)
    }
  }

  const EmptyTables := Tables({}, {}, [])

  function HistoryOf(events: seq<Event>, m: Id): seq<Change>
  {
    if events == [] then []
    else
      var last := events[|events| - 1];
      HistoryOf(events[..|events| - 1], m) + if last.subject == m then [last.change] else []
  }

  /** The identities of the member's events: their positions in the log. */
  function EventIds(events: seq<Event>, m: Id): set<nat> { set i: nat | i < |events| && events[i].subject == m }

  /** What SportingClassificationVersion hashes; the hash is taken to be injective. */
  datatype Version = Version(profile: Profile, events: set<nat>)

  function VersionOf(t: Tables, m: Id): Version { Version(t.ProfileOf(m), EventIds(t.events, m)) }

  /** DELETE or INSERT of one row, including the foreign key's cascade. */
  function ApplyRow(t: Tables, m: Id, c: Change): Tables
  {
    match (c.kind, c.action)
    case (Sport, Added) => t.(modalities := t.modalities + {(m, c.code)})
    case (Craft, Added) => t.(crafts := t.crafts + {(m, c.code)})
    case (Craft, Removed) => t.(crafts := t.crafts - {(m, c.code)})
    case (Sport, Removed) =>
      t.(modalities := t.modalities - {(m, c.code)},
         crafts := if c.code == Canoeing then set r | r in t.crafts && r.0 != m else t.crafts)
  }

  /** The part of an event that is the same for a whole correction. */
  datatype Stamp = Stamp(operation: Id, subject: Id, actor: Id, grant: Option<Id>, reason: string)

  function EventFor(s: Stamp, c: Change): Event { Event(s.operation, s.subject, s.actor, s.grant, c, s.reason) }

  /** One row change and its audit event. */
  function ApplyLogged(t: Tables, s: Stamp, c: Change): Tables
  {
    ApplyRow(t, s.subject, c).(events := t.events + [EventFor(s, c)])
  }

  function ApplyAll(t: Tables, s: Stamp, cs: seq<Change>): Tables
    decreases |cs|
  {
    if cs == [] then t else ApplyLogged(ApplyAll(t, s, cs[..|cs| - 1]), s, cs[|cs| - 1])
  }

  // ----- a correction -----

  datatype Correction = Correction(
    actor: Id, member: Id, kind: Option<Kind>, codes: seq<string>, reason: string, expected: Option<Version>)

  /** What the transaction reads about the actor and the member; None where no row is found. */
  datatype Authority = Authority(actorActive: Option<bool>, memberEligible: Option<bool>, admin: bool, grant: Option<Id>)

  datatype Outcome = Committed | Forbidden | Invalid | Stale | DatabaseError

  function Allowed(kind: Kind): set<string> { if kind == Sport then Modalities else Crafts }

  predicate ValidCodes(kind: Kind, codes: seq<string>)
  {
    |codes| <= |Allowed(kind)| && (forall c :: c in codes ==> c in Allowed(kind)) && Distinct(codes)
  }

  predicate ValidInput(c: Correction)
  {
    && c.kind.Some? && c.actor != Nil && c.member != Nil
    && 0 < ByteLength(TrimSpace(c.reason)) <= 500 && ValidCodes(c.kind.value, c.codes)
  }

  /** The checks inside the transaction, in the order of the code. */
  function Gate(t: Tables, c: Correction, a: Authority, classification: bool): Outcome
    requires ValidInput(c)
  {
    if a.actorActive != Some(true) || a.memberEligible != Some(true) then Forbidden
    else if !a.admin && a.grant == None then Forbidden
    else if (classification || c.expected.Some?) && c.expected != Some(VersionOf(t, c.member)) then Stale
    else if c.kind.value == Craft && Canoeing !in t.ProfileOf(c.member).modalities && c.codes != [] then Invalid
    else Committed
  }

  function StampOf(c: Correction, a: Authority, operation: Id): Stamp
  {
    Stamp(operation, c.member, c.actor, if a.admin then None else a.grant, TrimSpace(c.reason))
  }

  /** The tables and outcome when the database itself does not fail. */
  function Replaced(t: Tables, c: Correction, a: Authority, classification: bool, operation: Id): (Tables, Outcome)
  {
    if !ValidInput(c) then (t, Invalid)
    else if Gate(t, c, a, classification) != Committed then (t, Gate(t, c, a, classification))
    else (ApplyAll(t, StampOf(c, a, operation), Changes(t.ProfileOf(c.member), c.kind.value, Elements(c.codes))), Committed)
  }

  // ----- the log determines the tables -----

  lemma RowPlays(t: Tables, m: Id, c: Change)
    requires Coherent(Play(t.ProfileOf(m), c))
    ensures ApplyRow(t, m, c).ProfileOf(m) == Play(t.ProfileOf(m), c)
  {
    var p, q := t.ProfileOf(m), ApplyRow(t, m, c).ProfileOf(m);
    if c.kind == Sport && c.action == Removed && c.code == Canoeing {
      assert p.crafts == {};
      assert q.crafts == {};
      assert q.modalities == p.modalities - {c.code};
    } else if c.kind == Sport {
      hide Coherent;
      assert q.crafts == p.crafts;
      if c.action == Added {
        AddedRow(t.modalities, m, c.code);
      } else {
        assert q.modalities == p.modalities - {c.code};
      }
    } else {
      hide Coherent;
      assert q.modalities == p.modalities;
      if c.action == Added {
        AddedRow(t.crafts, m, c.code);
      } else {
        assert q.crafts == p.crafts - {c.code};
      }
    }
  }

  function CodesOf(rows: set<(Id, string)>, m: Id): set<string> { set r | r in rows && r.0 == m :: r.1 }

  lemma AddedRow(rows: set<(Id, string)>, m: Id, code: string)
    ensures CodesOf(rows + {(m, code)}, m) == CodesOf(rows, m) + {code}
  {
    assert (m, code) in rows + {(m, code)};
    forall x | x in CodesOf(rows, m) + {code} ensures x in CodesOf(rows + {(m, code)}, m) {
      if x in CodesOf(rows, m) { assert (m, x) in rows + {(m, code)}; }
    }
  }

  lemma RowFrame(t: Tables, m: Id, c: Change, other: Id)
    requires other != m
    ensures ApplyRow(t, m, c).ProfileOf(other) == t.ProfileOf(other)
  {
    var p, q := t.ProfileOf(other), ApplyRow(t, m, c).ProfileOf(other);
    assert p.modalities == q.modalities by {
      forall x ensures x in p.modalities <==> x in q.modalities { assert (other, x) in t.modalities <==> (other, x) in ApplyRow(t, m, c).modalities; }
    }
    assert p.crafts == q.crafts by {
      forall x ensures x in p.crafts <==> x in q.crafts { assert (other, x) in t.crafts <==> (other, x) in ApplyRow(t, m, c).crafts; }
    }
  }

  lemma HistoryGrows(events: seq<Event>, e: Event, m: Id)
    ensures HistoryOf(events + [e], m) == HistoryOf(events, m) + if e.subject == m then [e.change] else []
    ensures EventIds(events + [e], m) == EventIds(events, m) + if e.subject == m then {|events|} else {}
  {
    assert (events + [e])[..|events|] == events;
  }

  /** Applying logged changes plays them on the member and touches no one else. */
  lemma {:induction false} ApplyPlays(t: Tables, s: Stamp, cs: seq<Change>)
    requires GoodFrom(t.ProfileOf(s.subject), cs)
    ensures var u := ApplyAll(t, s, cs);
            && u.ProfileOf(s.subject) == PlayAll(t.ProfileOf(s.subject), cs)
            && HistoryOf(u.events, s.subject) == HistoryOf(t.events, s.subject) + cs
    decreases |cs|
  {
    if cs != [] {
      var n := |cs| - 1;
      var p := t.ProfileOf(s.subject);
      GoodPrefixWhole(p, cs);
      ApplyPlays(t, s, cs[..n]);
      var v := ApplyAll(t, s, cs[..n]);
      assert cs == cs[..n] + [cs[n]];
      PlayLast(p, cs[..n], cs[n]);
      LastCoherent(p, cs);
      hide GoodFrom, PlayAll, Coherent, Tables.ProfileOf;
      RowPlays(v, s.subject, cs[n]);
      ProfileIgnoresLog(ApplyRow(v, s.subject, cs[n]), v.events + [EventFor(s, cs[n])], s.subject);
      HistoryGrows(v.events, EventFor(s, cs[n]), s.subject);
    }
  }

  lemma ProfileIgnoresLog(t: Tables, events: seq<Event>, m: Id)
    ensures t.(events := events).ProfileOf(m) == t.ProfileOf(m)
  {
  }

  lemma {:induction false} GoodPrefixWhole(p: Profile, cs: seq<Change>)
    requires GoodFrom(p, cs) && cs != []
    ensures GoodFrom(p, cs[..|cs| - 1])
    decreases cs
  {
    if |cs| > 1 {
      GoodPrefixWhole(Play(p, cs[0]), cs[1..]);
      assert cs[..|cs| - 1][1..] == cs[1..][..|cs| - 2];
    }
  }

  lemma {:induction false} ApplyFrame(t: Tables, s: Stamp, cs: seq<Change>, other: Id)
    requires other != s.subject
    ensures var u := ApplyAll(t, s, cs);
            u.ProfileOf(other) == t.ProfileOf(other) && HistoryOf(u.events, other) == HistoryOf(t.events, other)
            && EventIds(u.events, other) == EventIds(t.events, other)
    decreases |cs|
  {
    if cs != [] {
      var n := |cs| - 1;
      ApplyFrame(t, s, cs[..n], other);
      var v := ApplyAll(t, s, cs[..n]);
      hide Tables.ProfileOf;
      RowFrame(v, s.subject, cs[n], other);
      ProfileIgnoresLog(ApplyRow(v, s.subject, cs[n]), v.events + [EventFor(s, cs[n])], other);
      HistoryGrows(v.events, EventFor(s, cs[n]), other);
    }
  }

  // ----- whole runs -----

  /** One call of the service; a failed one is rolled back by the database. */
  datatype Step = Step(correction: Correction, authority: Authority, classification: bool, operation: Id, failed: bool)

  function After(t: Tables, s: Step): Tables
  {
    if s.failed then t else Replaced(t, s.correction, s.authority, s.classification, s.operation).0
  }

  function RunFrom(t: Tables, steps: seq<Step>): Tables
    decreases |steps|
  {
    if steps == [] then t else After(RunFrom(t, steps[..|steps| - 1]), steps[|steps| - 1])
  }

  /** The member's history is good and replays to the member's current sets. */
  ghost predicate SoundFor(t: Tables, m: Id)
  {
    GoodFrom(NoSport, HistoryOf(t.events, m)) && Replay(HistoryOf(t.events, m)) == t.ProfileOf(m)
  }

  lemma GateAllowsChanges(t: Tables, c: Correction, a: Authority, classification: bool)
    requires ValidInput(c) && Gate(t, c, a, classification) == Committed
    ensures c.kind.value == Craft && Elements(c.codes) != {} ==> Canoeing in t.ProfileOf(c.member).modalities
  {
    if c.codes == [] { assert Elements(c.codes) == {}; }
  }

  /** A committed correction reaches the requested sets, and its events are the ones the sets call for. */
  lemma CommittedReplaces(t: Tables, c: Correction, a: Authority, classification: bool, operation: Id)
    requires Coherent(t.ProfileOf(c.member))
    requires Replaced(t, c, a, classification, operation).1 == Committed
    ensures var u := Replaced(t, c, a, classification, operation).0;
            var p := t.ProfileOf(c.member);
            && u.ProfileOf(c.member) == Target(p, c.kind.value, Elements(c.codes))
            && HistoryOf(u.events, c.member) == HistoryOf(t.events, c.member) + Changes(p, c.kind.value, Elements(c.codes))
            && GoodFrom(p, Changes(p, c.kind.value, Elements(c.codes)))
  {
    GateAllowsChanges(t, c, a, classification);
    hide Coherent, GoodFrom, PlayAll, Changes, Target, Tables.ProfileOf, ApplyAll, ValidInput;
    ChangesReachTarget(t.ProfileOf(c.member), c.kind.value, Elements(c.codes));
    ApplyPlays(t, StampOf(c, a, operation), Changes(t.ProfileOf(c.member), c.kind.value, Elements(c.codes)));
  }

  lemma SoundIsCoherent(t: Tables, m: Id)
    requires SoundFor(t, m)
    ensures Coherent(t.ProfileOf(m))
  {
    LastCoherent(NoSport, HistoryOf(t.events, m));
  }

  lemma StepKeepsSound(t: Tables, s: Step, m: Id)
    requires SoundFor(t, m)
    ensures SoundFor(After(t, s), m)
  {
    var c := s.correction;
    var r := Replaced(t, c, s.authority, s.classification, s.operation);
    if !s.failed && r.1 == Committed {
      var p := t.ProfileOf(c.member);
      if c.member == m {
        SoundIsCoherent(t, m);
        CommittedReplaces(t, c, s.authority, s.classification, s.operation);
        hide Replaced, Tables.ProfileOf, GoodFrom, PlayAll, HistoryOf, Changes, Target;
        PlayConcat(NoSport, HistoryOf(t.events, m), Changes(p, c.kind.value, Elements(c.codes)));
        TargetIsPlayed(p, c.kind.value, Elements(c.codes), t, s);
      } else {
        hide Tables.ProfileOf, GoodFrom, PlayAll, HistoryOf, Changes, Gate, ValidInput;
        ApplyFrame(t, StampOf(c, s.authority, s.operation), Changes(p, c.kind.value, Elements(c.codes)), m);
      }
    }
  }

  lemma TargetIsPlayed(p: Profile, kind: Kind, desired: set<string>, t: Tables, s: Step)
    requires Coherent(p) && s.correction.kind == Some(kind) && desired == Elements(s.correction.codes) && p == t.ProfileOf(s.correction.member)
    requires Replaced(t, s.correction, s.authority, s.classification, s.operation).1 == Committed
    ensures PlayAll(p, Changes(p, kind, desired)) == Target(p, kind, desired)
  {
    GateAllowsChanges(t, s.correction, s.authority, s.classification);
    hide Changes, Target, PlayAll, GoodFrom, Coherent, Tables.ProfileOf;
    ChangesReachTarget(p, kind, desired);
  }

  /** Main result: over every run from empty tables, each member's log replays to the current sets. */
  lemma {:induction false} RunsAreSound(steps: seq<Step>, m: Id)
    ensures SoundFor(RunFrom(EmptyTables, steps), m)
    decreases |steps|
  {
    if steps == [] {
      assert EmptyTables.ProfileOf(m) == NoSport;
    } else {
      RunsAreSound(steps[..|steps| - 1], m);
      StepKeepsSound(RunFrom(EmptyTables, steps[..|steps| - 1]), steps[|steps| - 1], m);
    }
  }

  /** Every prefix of every member's log has the modality that its crafts need. */
  lemma EveryPrefixCoherent(steps: seq<Step>, m: Id, i: nat)
    requires i <= |HistoryOf(RunFrom(EmptyTables, steps).events, m)|
    ensures Coherent(Replay(HistoryOf(RunFrom(EmptyTables, steps).events, m)[..i]))
  {
    RunsAreSound(steps, m);
    GoodPrefix(NoSport, HistoryOf(RunFrom(EmptyTables, steps).events, m), i);
  }

  /** Over every run, two consecutive events about one code of one member have different actions. */
  lemma ActionsAlternate(steps: seq<Step>, m: Id, i: nat, j: nat)
    requires var h := HistoryOf(RunFrom(EmptyTables, steps).events, m);
             i < j < |h| && About(h[i], h[j]) && forall k :: i < k < j ==> !About(h[k], h[j])
    ensures var h := HistoryOf(RunFrom(EmptyTables, steps).events, m); h[i].action != h[j].action
  {
    RunsAreSound(steps, m);
    Alternation(HistoryOf(RunFrom(EmptyTables, steps).events, m), i, j);
  }

  // ----- the rules, field by field -----

  /** The input is complete, and names each code of its kind at most once. */
  predicate WellPosed(c: Correction)
  {
    && c.actor != 0 && c.member != 0 && TrimSpace(c.reason) != "" && ByteLength(TrimSpace(c.reason)) <= 500
    && (forall i, j :: 0 <= i < j < |c.codes| ==> c.codes[i] != c.codes[j])
    && match c.kind
       case None => false
       case Some(Sport) => forall i :: 0 <= i < |c.codes| ==> c.codes[i] in {"CANOEING", "KAYAK_POLO", "SUP"}
       case Some(Craft) => forall i :: 0 <= i < |c.codes| ==> c.codes[i] in {"K1", "K2", "K4", "C1", "C2", "C4"}
  }

  predicate Entitled(a: Authority) { a.actorActive == Some(true) && a.memberEligible == Some(true) && (a.admin || a.grant.Some?) }

  /** The expected version is needed by the classification page, and whenever it is given it must be the current one. */
  predicate VersionFits(t: Tables, c: Correction, classification: bool)
  {
    match c.expected
    case None => !classification
    case Some(version) => version.profile == t.ProfileOf(c.member) && version.events == EventIds(t.events, c.member)
  }

  predicate ParentThere(t: Tables, c: Correction) { c.kind == Some(Craft) && c.codes != [] ==> (c.member, "CANOEING") in t.modalities }

  lemma {:induction false} EmptyText(s: string)
    ensures ByteLength(s) > 0 <==> s != ""
  {
  }

  lemma DistinctFit(codes: seq<string>, allowed: set<string>)
    requires Distinct(codes) && forall c :: c in codes ==> c in allowed
    ensures |codes| <= |allowed|
    decreases |codes|
  {
    if codes != [] {
      var n := |codes| - 1;
      assert codes[n] !in codes[..n];
      DistinctFit(codes[..n], allowed - {codes[n]});
    }
  }

  lemma WellPosedIff(c: Correction)
    ensures WellPosed(c) <==> ValidInput(c)
  {
    EmptyText(TrimSpace(c.reason));
    if c.kind.Some? { CodesIff(c.kind.value, c.codes); }
    hide ByteLength, TrimSpace, ValidCodes;
  }

  lemma CodesIff(kind: Kind, codes: seq<string>)
    ensures ValidCodes(kind, codes) <==>
            && (forall i, j :: 0 <= i < j < |codes| ==> codes[i] != codes[j])
            && (forall i :: 0 <= i < |codes| ==>
                  if kind == Sport then codes[i] in {"CANOEING", "KAYAK_POLO", "SUP"} else codes[i] in {"K1", "K2", "K4", "C1", "C2", "C4"})
  {
    var allowed := Allowed(kind);
    assert (forall i :: 0 <= i < |codes| ==> codes[i] in allowed) <==> forall c :: c in codes ==> c in allowed;
    if Distinct(codes) && forall c :: c in codes ==> c in allowed { DistinctFit(codes, allowed); }
    assert kind == Sport ==> allowed == {"CANOEING", "KAYAK_POLO", "SUP"};
    assert kind == Craft ==> allowed == {"K1", "K2", "K4", "C1", "C2", "C4"};
  }

  lemma ParentIff(t: Tables, m: Id)
    ensures Canoeing in t.ProfileOf(m).modalities <==> (m, "CANOEING") in t.modalities
  {
    if (m, "CANOEING") in t.modalities { assert Canoeing in CodesOf(t.modalities, m); }
  }

  /** Each outcome, when the database does not fail: what is checked, and in which order. */
  lemma OutcomeIff(t: Tables, c: Correction, a: Authority, classification: bool, operation: Id)
    ensures var outcome := Replaced(t, c, a, classification, operation).1;
            && (outcome == Committed <==> WellPosed(c) && Entitled(a) && VersionFits(t, c, classification) && ParentThere(t, c))
            && (outcome == Forbidden <==> WellPosed(c) && !Entitled(a))
            && (outcome == Stale <==> WellPosed(c) && Entitled(a) && !VersionFits(t, c, classification))
            && (outcome != Committed ==> Replaced(t, c, a, classification, operation).0 == t)
  {
    WellPosedIff(c);
    assert WellPosed(c) ==> c.kind.Some?;
    ParentIff(t, c.member);
    hide WellPosed, ValidInput, ApplyAll, Changes, Tables.ProfileOf, EventIds;
  }

  /** The sets after a commit: the requested codes on their axis, and no crafts without CANOEING. Nobody else is touched. */
  lemma CommittedSets(t: Tables, c: Correction, a: Authority, classification: bool, operation: Id)
    requires Coherent(t.ProfileOf(c.member)) && Replaced(t, c, a, classification, operation).1 == Committed
    ensures var p := t.ProfileOf(c.member); var u := Replaced(t, c, a, classification, operation).0; var q := u.ProfileOf(c.member);
            && (c.kind == Some(Sport) ==>
                  (forall x :: x in q.modalities <==> x in c.codes) && q.crafts == if "CANOEING" in c.codes then p.crafts else {})
            && (c.kind == Some(Craft) ==> q.modalities == p.modalities && forall x :: x in q.crafts <==> x in c.codes)
            && (forall m :: m != c.member ==> u.ProfileOf(m) == t.ProfileOf(m) && HistoryOf(u.events, m) == HistoryOf(t.events, m))
  {
    CommittedReplaces(t, c, a, classification, operation);
    hide Tables.ProfileOf, ApplyAll, HistoryOf, Gate, ValidInput, Changes;
    forall m | m != c.member
      ensures var u := Replaced(t, c, a, classification, operation).0;
              u.ProfileOf(m) == t.ProfileOf(m) && HistoryOf(u.events, m) == HistoryOf(t.events, m)
    {
      ApplyFrame(t, StampOf(c, a, operation), Changes(t.ProfileOf(c.member), c.kind.value, Elements(c.codes)), m);
    }
  }

  /** An event of this correction: its operation, people and reason, and the grant only of an actor who needed one. */
  predicate RecordedBy(e: Event, c: Correction, a: Authority, operation: Id)
  {
    && e.operation == operation && e.subject == c.member && e.actor == c.actor && e.reason == TrimSpace(c.reason)
    && e.grant == if a.admin then None else a.grant
  }

  lemma {:induction false} EventsAppended(t: Tables, s: Stamp, cs: seq<Change>)
    ensures var u := ApplyAll(t, s, cs);
            && |u.events| == |t.events| + |cs| && u.events[..|t.events|] == t.events
            && forall i :: 0 <= i < |cs| ==> u.events[|t.events| + i] == Event(s.operation, s.subject, s.actor, s.grant, cs[i], s.reason)
    decreases |cs|
  {
    if cs != [] { EventsAppended(t, s, cs[..|cs| - 1]); }
  }

  /** The log only grows, by one event of this correction for each change. */
  lemma CommittedEvents(t: Tables, c: Correction, a: Authority, classification: bool, operation: Id)
    requires Replaced(t, c, a, classification, operation).1 == Committed
    ensures var u := Replaced(t, c, a, classification, operation).0;
            var cs := Changes(t.ProfileOf(c.member), c.kind.value, Elements(c.codes));
            && |u.events| == |t.events| + |cs| && u.events[..|t.events|] == t.events
            && forall i :: 0 <= i < |cs| ==>
                 u.events[|t.events| + i].change == cs[i] && RecordedBy(u.events[|t.events| + i], c, a, operation)
  {
    assert c.kind.Some?;
    hide Changes, ApplyAll, Gate, ValidInput, TrimSpace, Tables.ProfileOf, Elements, RecordedBy, StampOf;
    var s, cs := StampOf(c, a, operation), Changes(t.ProfileOf(c.member), c.kind.value, Elements(c.codes));
    EventsAppended(t, s, cs);
    var u := ApplyAll(t, s, cs);
    assert u == Replaced(t, c, a, classification, operation).0;
    hide Replaced;
    forall i | 0 <= i < |cs|
      ensures u.events[|t.events| + i].change == cs[i] && RecordedBy(u.events[|t.events| + i], c, a, operation)
    {
      StampRecords(c, a, operation, cs[i]);
    }
  }

  lemma StampRecords(c: Correction, a: Authority, operation: Id, change: Change)
    ensures var s := StampOf(c, a, operation);
            RecordedBy(Event(s.operation, s.subject, s.actor, s.grant, change, s.reason), c, a, operation)
  {
    hide TrimSpace;
  }

  /** Removals come before additions, lost crafts first of all, and each group is in code order. */
  lemma ChangesAreOrdered(p: Profile, kind: Kind, desired: set<string>, i: nat, j: nat)
    requires i < j < |Changes(p, kind, desired)|
    ensures var c, d := Changes(p, kind, desired)[i], Changes(p, kind, desired)[j];
            && (c.action == Added ==> d.action == Added) && (c.kind == Sport ==> d.kind == Sport)
            && (c.kind == d.kind && c.action == d.action ==> Less(c.code, d.code))
  {
    hide InOrder, Less, Axis;
    var a := if DropsCanoeing(p, kind, desired) then InOrder(Craft, Removed, p.crafts) else [];
    InOrderIs(Craft, Removed, p.crafts);
    InOrderIs(kind, Removed, Axis(p, kind) - desired);
    InOrderIs(kind, Added, desired - Axis(p, kind));
    var b, c := InOrder(kind, Removed, Axis(p, kind) - desired), InOrder(kind, Added, desired - Axis(p, kind));
    assert DropsCanoeing(p, kind, desired) ==> kind == Sport;
    assert Changes(p, kind, desired) == a + b + c;
    hide Changes, DropsCanoeing;
    GroupsInOrder(a, b, c, kind, i, j);
  }

  predicate Group(cs: seq<Change>, kind: Kind, action: Action)
  {
    && (forall i :: 0 <= i < |cs| ==> cs[i].kind == kind && cs[i].action == action)
    && forall i, j :: 0 <= i < j < |cs| ==> Less(cs[i].code, cs[j].code)
  }

  lemma TaggedGroup(kind: Kind, action: Action, keys: seq<string>)
    requires forall i, j :: 0 <= i < j < |keys| ==> Less(keys[i], keys[j])
    ensures Group(Tagged(kind, action, keys), kind, action)
  {
    hide Leq;
  }

  lemma InOrderIs(kind: Kind, action: Action, codes: set<string>)
    ensures Group(InOrder(kind, action, codes), kind, action)
  {
    hide Less, Group, Tagged, Json.SortedKeys;
    var keys := Json.SortedKeys(codes);
    KeysAscend(codes, keys);
    TaggedGroup(kind, action, keys);
  }

  lemma GroupsInOrder(a: seq<Change>, b: seq<Change>, c: seq<Change>, kind: Kind, i: nat, j: nat)
    requires Group(a, Craft, Removed) && Group(b, kind, Removed) && Group(c, kind, Added) && (a != [] ==> kind == Sport)
    requires i < j < |a + b + c|
    ensures var d, e := (a + b + c)[i], (a + b + c)[j];
            && (d.action == Added ==> e.action == Added) && (d.kind == Sport ==> e.kind == Sport)
            && (d.kind == e.kind && d.action == e.action ==> Less(d.code, e.code))
  {
    hide Less;
    var cs, m, n := a + b + c, |a|, |a| + |b|;
    assert forall k :: 0 <= k < m ==> cs[k] == a[k];
    assert forall k :: m <= k < n ==> cs[k] == b[k - m];
    assert forall k :: n <= k < |cs| ==> cs[k] == c[k - n];
  }

  lemma KeysAscend(codes: set<string>, keys: seq<string>)
    requires keys == Json.SortedKeys(codes)
    ensures forall i, j :: 0 <= i < j < |keys| ==> Less(keys[i], keys[j])
  {
    Json.SortedKeysAscend(codes);
    hide Leq, Json.SortedKeys;
  }

  // ----- stale versions -----

  lemma {:induction false} IdsOnlyGrow(t: Tables, s: Stamp, cs: seq<Change>)
    ensures EventIds(t.events, s.subject) <= EventIds(ApplyAll(t, s, cs).events, s.subject)
    ensures cs != [] ==> EventIds(t.events, s.subject) < EventIds(ApplyAll(t, s, cs).events, s.subject)
    decreases |cs|
  {
    if cs != [] {
      var n := |cs| - 1;
      IdsOnlyGrow(t, s, cs[..n]);
      var v := ApplyAll(t, s, cs[..n]);
      HistoryGrows(v.events, EventFor(s, cs[n]), s.subject);
      assert |v.events| !in EventIds(v.events, s.subject);
    }
  }

  lemma StepKeepsIds(t: Tables, s: Step, m: Id)
    ensures EventIds(t.events, m) <= EventIds(After(t, s).events, m)
  {
    var c := s.correction;
    if !s.failed && Replaced(t, c, s.authority, s.classification, s.operation).1 == Committed {
      var cs := Changes(t.ProfileOf(c.member), c.kind.value, Elements(c.codes));
      hide EventIds, Tables.ProfileOf, Changes, Gate, ValidInput;
      if c.member == m {
        IdsOnlyGrow(t, StampOf(c, s.authority, s.operation), cs);
      } else {
        ApplyFrame(t, StampOf(c, s.authority, s.operation), cs, m);
      }
    }
  }

  lemma {:induction false} RunKeepsIds(t: Tables, steps: seq<Step>, m: Id)
    ensures EventIds(t.events, m) <= EventIds(RunFrom(t, steps).events, m)
    decreases |steps|
  {
    if steps != [] {
      RunKeepsIds(t, steps[..|steps| - 1], m);
      StepKeepsIds(RunFrom(t, steps[..|steps| - 1]), steps[|steps| - 1], m);
    }
  }

  /** The step is a committed correction of the member that changes something. */
  predicate EffectiveStep(t: Tables, s: Step, m: Id)
  {
    && !s.failed && s.correction.member == m
    && Replaced(t, s.correction, s.authority, s.classification, s.operation).1 == Committed
    && Changes(t.ProfileOf(m), s.correction.kind.value, Elements(s.correction.codes)) != []
  }

  /** Main result: a version read before an effective correction is never the current version again. */
  lemma VersionNeverReturns(t: Tables, s: Step, later: seq<Step>, m: Id)
    requires EffectiveStep(t, s, m)
    ensures VersionOf(RunFrom(After(t, s), later), m) != VersionOf(t, m)
  {
    var c := s.correction;
    var cs := Changes(t.ProfileOf(m), c.kind.value, Elements(c.codes));
    hide EventIds, Tables.ProfileOf, Changes, Gate, ValidInput;
    IdsOnlyGrow(t, StampOf(c, s.authority, s.operation), cs);
    RunKeepsIds(After(t, s), later, m);
  }

  /** So a correction that carries such a version is refused, even after the change was reversed. */
  lemma OldVersionIsStale(t: Tables, s: Step, later: seq<Step>, retry: Correction, a: Authority, classification: bool, operation: Id)
    requires EffectiveStep(t, s, retry.member) && retry.expected == Some(VersionOf(t, retry.member))
    ensures Replaced(RunFrom(After(t, s), later), retry, a, classification, operation).1 != Committed
    ensures Replaced(RunFrom(After(t, s), later), retry, a, classification, operation).0 == RunFrom(After(t, s), later)
  {
    VersionNeverReturns(t, s, later, retry.member);
    hide RunFrom, VersionOf, After, EffectiveStep, ValidInput;
  }

  /** A committed correction is without effect exactly when the sets already were as requested. */
  lemma NoChangesIff(p: Profile, kind: Kind, desired: set<string>)
    requires Coherent(p)
    ensures Changes(p, kind, desired) == [] <==> Target(p, kind, desired) == p
  {
    EmptySegment(kind, Removed, Axis(p, kind) - desired);
    EmptySegment(kind, Added, desired - Axis(p, kind));
    EmptySegment(Craft, Removed, p.crafts);
    hide InOrder;
    if Axis(p, kind) - desired == {} && desired - Axis(p, kind) == {} { assert desired == Axis(p, kind); }
  }

  lemma EmptySegment(kind: Kind, action: Action, codes: set<string>)
    ensures InOrder(kind, action, codes) == [] <==> codes == {}
  {
    assert |InOrder(kind, action, codes)| == |codes|;
  }

  // ----- the order of the submitted codes -----

  /** The order in which the codes are submitted has no influence. */
  lemma CodeOrderIrrelevant(t: Tables, c: Correction, codes: seq<string>, a: Authority, classification: bool, operation: Id)
    requires multiset(codes) == multiset(c.codes)
    ensures Replaced(t, c.(codes := codes), a, classification, operation) == Replaced(t, c, a, classification, operation)
  {
    SameMembers(codes, c.codes);
    assert Elements(codes) == Elements(c.codes);
    SameValidity(c, codes);
    hide Elements, ApplyAll, Changes, Tables.ProfileOf, ValidInput, VersionOf;
  }

  lemma SameValidity(c: Correction, codes: seq<string>)
    requires multiset(codes) == multiset(c.codes)
    ensures ValidInput(c.(codes := codes)) == ValidInput(c)
  {
    SameMembers(codes, c.codes);
    DistinctCounts(codes);
    DistinctCounts(c.codes);
    hide Distinct, Allowed, TrimSpace, ByteLength;
  }

  // ----- the service on its tables -----

  lemma ApplyNext(t: Tables, s: Stamp, cs: seq<Change>, i: nat)
    requires i < |cs|
    ensures ApplyAll(t, s, cs[..i + 1]) == ApplyLogged(ApplyAll(t, s, cs[..i]), s, cs[i])
  {
    assert cs[..i + 1][..i] == cs[..i];
  }

  lemma {:induction false} ApplyConcat(t: Tables, s: Stamp, a: seq<Change>, b: seq<Change>)
    ensures ApplyAll(t, s, a + b) == ApplyAll(ApplyAll(t, s, a), s, b)
    decreases |b|
  {
    if b == [] {
      assert a + b == a;
    } else {
      assert (a + b)[..|a + b| - 1] == a + b[..|b| - 1];
      ApplyConcat(t, s, a, b[..|b| - 1]);
    }
  }

  class Service {
    var modalities: set<(Id, string)>
    var crafts: set<(Id, string)>
    var events: seq<Event>

    function Contents(): Tables
      reads this
    {
      Tables(modalities, crafts, events)
    }

    constructor ()
      ensures Contents() == EmptyTables
    {
      modalities, crafts, events := {}, {}, [];
    }

    method Rollback(to: Tables)
      modifies this
      ensures Contents() == to
    {
      modalities, crafts, events := to.modalities, to.crafts, to.events;
    }

    /** One row change and its event; the statements fail when no budget is left. */
    method Logged(s: Stamp, c: Change, budget: nat) returns (ok: bool, left: nat)
      modifies this
      ensures ok ==> Contents() == ApplyLogged(old(Contents()), s, c)
      ensures ok <==> budget >= 2
      ensures ok ==> left == budget - 2
    {
      if budget < 2 { return false, 0; }
      var row := ApplyRow(Contents(), s.subject, c);
      modalities, crafts := row.modalities, row.crafts;
      events := events + [EventFor(s, c)];
      return true, budget - 2;
    }

    /** The loop over sorted codes: change the row, then record it. */
    method ChangeInOrder(s: Stamp, kind: Kind, action: Action, codes: seq<string>, budget: nat) returns (ok: bool, left: nat)
      modifies this
      ensures ok ==> Contents() == ApplyAll(old(Contents()), s, Tagged(kind, action, codes))
      ensures ok <==> budget >= 2 * |codes|
      ensures ok ==> left == budget - 2 * |codes|
    {
      ghost var cs := Tagged(kind, action, codes);
      left := budget;
      hide ApplyLogged, Tagged;
      for i := 0 to |codes|
        invariant Contents() == ApplyAll(old(Contents()), s, cs[..i])
        invariant budget >= 2 * i && left == budget - 2 * i
      {
        ok, left := Logged(s, Change(kind, action, codes[i]), left);
        if !ok { return; }
        ApplyNext(old(Contents()), s, cs, i);
      }
      ok := true;
      assert cs[..|codes|] == cs;
    }

    /** Collects the codes of one set that are missing from another, in the map's own order, and sorts them. */
    method Missing(from_: set<string>, other: set<string>) returns (codes: seq<string>)
      ensures codes == Json.SortedKeys(from_ - other)
    {
      var pending := from_;
      codes := [];
      while pending != {}
        invariant pending <= from_ && Distinct(codes)
        invariant forall c :: c in codes <==> c in from_ - pending - other
        decreases |pending|
      {
        var code :| code in pending;
        assert code !in codes;
        pending := pending - {code};
        if code !in other { codes := codes + [code]; }
      }
      Json.SortedListOfKeys(codes, from_ - other);
      codes := Sort(codes, Leq);
    }

    /**
     * replace: the transaction either commits the whole correction or leaves the tables as they were.
     * budget is the number of changing statements the database executes before it fails, its commit included: an
     * admitted correction commits exactly when that covers a row and an event for every change, and the commit.
     */
    method Replace(c: Correction, a: Authority, classification: bool, operation: Id, budget: nat) returns (outcome: Outcome)
      modifies this
      ensures outcome == DatabaseError ==> Contents() == old(Contents())
      ensures outcome != DatabaseError ==>
                (Contents(), outcome) == Replaced(old(Contents()), c, a, classification, operation)
      ensures outcome == DatabaseError <==>
                && Replaced(old(Contents()), c, a, classification, operation).1 == Committed
                && budget <= 2 * |Changes(old(Contents()).ProfileOf(c.member), c.kind.value, Elements(c.codes))|
    {
      hide Tables.ProfileOf, ApplyAll, VersionOf, Allowed, TrimSpace, ByteLength;
      if !ValidInput(c) { return Invalid; }
      var before := Contents();
      var gate := Gate(before, c, a, classification);
      if gate != Committed { return gate; }
      var ok, left := Correct(c, StampOf(c, a, operation), budget);
      if !ok || left == 0 {
        Rollback(before);
        return DatabaseError;
      }
      return Committed;
    }

    /** The changes of an admitted correction. */
    method Correct(c: Correction, s: Stamp, budget: nat) returns (ok: bool, left: nat)
      requires c.kind.Some? && s.subject == c.member
      modifies this
      ensures ok ==> Contents() == ApplyAll(old(Contents()), s, Changes(old(Contents()).ProfileOf(c.member), c.kind.value, Elements(c.codes)))
      ensures var n := |Changes(old(Contents()).ProfileOf(c.member), c.kind.value, Elements(c.codes))|;
              (ok <==> budget >= 2 * n) && (ok ==> left == budget - 2 * n)
    {
      hide Tables.ProfileOf, ApplyAll;
      ghost var before := Contents();
      var kind := c.kind.value;
      var desired := Elements(c.codes);
      var p := Contents().ProfileOf(c.member);
      var current := Axis(p, kind);
      left := budget;
      ghost var a: seq<Change> := [];
      if DropsCanoeing(p, kind, desired) {
        var lost := Missing(p.crafts, {});
        assert p.crafts - {} == p.crafts;
        a := InOrder(Craft, Removed, p.crafts);
        ok, left := ChangeInOrder(s, Craft, Removed, lost, left);
        if !ok { return; }
      } else {
        NothingApplied(before, s);
      }
      var removed := Missing(current, desired);
      var added := Missing(desired, current);
      ok, left := ChangeInOrder(s, kind, Removed, removed, left);
      if !ok { return; }
      ok, left := ChangeInOrder(s, kind, Added, added, left);
      ApplyConcat(before, s, a, InOrder(kind, Removed, current - desired));
      ApplyConcat(before, s, a + InOrder(kind, Removed, current - desired), InOrder(kind, Added, desired - current));
    }
  }

  lemma NothingApplied(t: Tables, s: Stamp)
    ensures ApplyAll(t, s, []) == t
  {
  }
}
