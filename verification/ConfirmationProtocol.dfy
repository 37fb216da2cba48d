/** Preview, then confirm: what a committed dated write owes to an earlier preview. */
module ConfirmationProtocol {
  import opened Text
  import opened ConfirmationTokens
  import opened DatedParticipation

  /** ClassificationWrite without its expected version. */
  datatype Request = Request(
    actor: Id, member: Id, season: Id, programme: Id, category: Option<Id>, startsOn: int, previous: Option<Id>, reason: string)

  /** What a binding covers; kind is DATED, SPORT or CRAFT and only DATED has a request. */
  datatype Subject = Subject(actor: Id, member: Id, kind: string, request: Option<Request>)

  const Dated := "DATED"

  /** The process-local key, the binding hash and the version hash. */
  datatype Crypto = Crypto(signer: Signer, binding: Subject -> string, digest: Version -> string)

  /** Ideal hashes with dot-free, non-empty text. */
  ghost predicate Ideal(c: Crypto)
  {
    && Lawful(c.signer)
    && (forall s, t: Subject :: c.binding(s) == c.binding(t) ==> s == t)
    && (forall s: Subject :: '.' !in c.binding(s))
    && (forall v, w: Version :: c.digest(v) == c.digest(w) ==> v == w)
    && (forall v: Version :: '.' !in c.digest(v) && c.digest(v) != "")
  }

  /** A token that was handed out, with the member's data at that moment. */
  datatype Issue = Issue(subject: Subject, data: Version, at: int)

  /** A confirmation that passed the handler's checks and goes on to write. */
  datatype Pending = Pending(request: Request, expected: string, verifiedAt: int)

  /** A committed write, with the member's data inside the committing transaction. */
  datatype Commit = Commit(request: Request, data: Version, verifiedAt: int, id: Id, row: Row)

  datatype World = World(rows: Rows, definitions: nat, issues: seq<Issue>, pending: seq<Pending>, commits: seq<Commit>)

  datatype Step =
    | ElsewhereChange(rows: Rows, definitions: nat)
    | Preview(subject: Subject, firstVersion: string, now: int)
    | Check(token: string, request: Request, now: int)
    | Write(index: nat, facts: Facts)

  function Data(w: World, member: Id): Version { VersionData(w.rows, member, w.definitions) }

  function DatedSubject(r: Request): Subject { Subject(r.actor, r.member, Dated, Some(r)) }

  function IssuePayload(c: Crypto, i: Issue): string { Payload(c.binding(i.subject), c.digest(i.data), i.at + Lifetime) }

  function IssueToken(c: Crypto, i: Issue): string { Sign(c.signer, c.binding(i.subject), c.digest(i.data), i.at) }

  /** PostgresClassificationStore.Write: the service call, or None when the exception's reason is refused. */
  function AssignmentOf(r: Request, expected: string): Option<Assignment>
  {
    var reason := TrimSpace(r.reason);
    if r.reason != "" && (r.category == None || r.category == Some(Nil) || |reason| < 2 || |reason| > 500) then None
    else Some(Assignment(r.actor, r.member, r.season, r.programme, r.category, r.startsOn, r.previous, reason, expected))
  }

  /** The transaction reads the current definitions and hashes with the same function. */
  ghost predicate FactsHold(c: Crypto, w: World, f: Facts) { f.definitions == w.definitions && f.digest == c.digest }

  function Next(c: Crypto, w: World, s: Step): World
  {
    match s
    case ElsewhereChange(rows, definitions) => w.(rows := rows, definitions := definitions)
    case Preview(subject, firstVersion, now) =>
      // both version reads of the request must agree before a token is signed
      if firstVersion != c.digest(Data(w, subject.member)) then w
      else w.(issues := w.issues + [Issue(subject, Data(w, subject.member), now)])
    case Check(token, request, now) =>
      (match Verify(c.signer, token, c.binding(DatedSubject(request)), now)
       case None => w
       case Some(expected) =>
         if expected != c.digest(Data(w, request.member)) then w
         else w.(pending := w.pending + [Pending(request, expected, now)]))
    case Write(index, facts) =>
      if index >= |w.pending| then w
      else
        var p := w.pending[index];
        match AssignmentOf(p.request, p.expected)
        case None => w
        case Some(a) =>
          var r := Written(w.rows, a, facts);
          if !r.1.Committed? || r.1.id !in r.0 then w
          else w.(rows := r.0,
                  commits := w.commits + [Commit(p.request, Data(w, a.member), p.verifiedAt, r.1.id, r.0[r.1.id])])
  }

  /** No one makes a valid hash without the key: a presented token verifies only if its payload was signed. */
  ghost predicate Unforged(c: Crypto, w: World, token: string)
  {
    var parts := Split(token, '.');
    |parts| == 4 && c.signer.decode(parts[3]) == Some(c.signer.mac(Join(parts[..3], '.'))) ==>
      exists i :: i in w.issues && IssuePayload(c, i) == Join(parts[..3], '.')
  }

  ghost predicate Possible(c: Crypto, w: World, s: Step)
  {
    match s
    case Preview(_, _, now) => Int64(now + Lifetime)
    case Check(token, _, _) => Unforged(c, w, token)
    case Write(_, facts) => FactsHold(c, w, facts)
    case _ => true
  }

  // ----- the invariant -----

  /** i is a preview of the request that was still valid at second at. */
  predicate PreviewOf(i: Issue, request: Request, at: int)
  {
    i.subject == DatedSubject(request) && i.at <= at < i.at + Lifetime
  }

  ghost predicate PendingBacked(c: Crypto, w: World, p: Pending)
  {
    exists i :: i in w.issues && PreviewOf(i, p.request, p.verifiedAt) && c.digest(i.data) == p.expected
  }

  /** The committed write carries the previewed values and was made on the previewed data. */
  ghost predicate CommitBacked(w: World, k: Commit)
  {
    && (exists i :: i in w.issues && PreviewOf(i, k.request, k.verifiedAt) && i.data == k.data)
    && k.row.member == k.request.member && k.row.season == k.request.season && k.row.programme == k.request.programme
    && k.row.category == k.request.category && k.row.startsOn == k.request.startsOn
    && (if k.request.reason == "" then k.row.exception == None
        else
          && k.row.exception == Some(Exception(TrimSpace(k.request.reason), k.request.actor))
          && k.request.category.Some? && k.request.category.value != 0 && 2 <= |TrimSpace(k.request.reason)| <= 500)
  }

  ghost predicate Invariant(c: Crypto, w: World)
  {
    && (forall i :: i in w.issues ==> Int64(i.at + Lifetime))
    && (forall p :: p in w.pending ==> PendingBacked(c, w, p))
    && (forall k :: k in w.commits ==> CommitBacked(w, k))
  }

  /** An accepted confirmation goes back to a preview of the same request. */
  lemma CheckedHasPreview(c: Crypto, w: World, token: string, request: Request, now: int)
    requires Ideal(c) && Invariant(c, w) && Unforged(c, w, token)
    requires Verify(c.signer, token, c.binding(DatedSubject(request)), now).Some?
    ensures var expected := Verify(c.signer, token, c.binding(DatedSubject(request)), now).value;
            exists i :: i in w.issues && PreviewOf(i, request, now) && c.digest(i.data) == expected
  {
    var binding := c.binding(DatedSubject(request));
    var parts := Split(token, '.');
    VerifiedPayload(c.signer, token, binding, now);
    var i :| i in w.issues && IssuePayload(c, i) == Join(parts[..3], '.');
    hide Verify, Join, Split, ParseInt, FormatInt;
    PayloadFields(parts[..3], c.binding(i.subject), c.digest(i.data), i.at + Lifetime);
    ParseFormatted(i.at + Lifetime);
    assert parts[..3][0] == parts[0] && parts[..3][1] == parts[1] && parts[..3][2] == parts[2];
  }

  lemma IssuesKeepBacking(c: Crypto, w: World, issue: Issue)
    requires Invariant(c, w) && Int64(issue.at + Lifetime)
    ensures Invariant(c, w.(issues := w.issues + [issue]))
  {
    var w' := w.(issues := w.issues + [issue]);
    hide PreviewOf;
    forall p | p in w'.pending ensures PendingBacked(c, w', p) {
      var i :| i in w.issues && PreviewOf(i, p.request, p.verifiedAt) && c.digest(i.data) == p.expected;
      assert i in w'.issues;
    }
    forall k | k in w'.commits ensures CommitBacked(w', k) {
      var i :| i in w.issues && PreviewOf(i, k.request, k.verifiedAt) && i.data == k.data;
      assert i in w'.issues;
    }
  }

  lemma PendingKeeps(c: Crypto, w: World, p: Pending)
    requires Invariant(c, w) && PendingBacked(c, w, p)
    ensures Invariant(c, w.(pending := w.pending + [p]))
  {
    var w' := w.(pending := w.pending + [p]);
    hide PreviewOf;
    forall q | q in w'.pending ensures PendingBacked(c, w', q) {
      assert PendingBacked(c, w, q);
    }
    forall k | k in w'.commits ensures CommitBacked(w', k) { assert CommitBacked(w, k); }
  }

  /** A committed write was made on the version that the confirmation carried. */
  lemma CommittedOnExpected(c: Crypto, w: World, p: Pending, a: Assignment, f: Facts)
    requires Ideal(c) && PendingBacked(c, w, p) && AssignmentOf(p.request, p.expected) == Some(a) && FactsHold(c, w, f)
    requires Written(w.rows, a, f).1.Committed? && Written(w.rows, a, f).1.id in Written(w.rows, a, f).0
    ensures var r := Written(w.rows, a, f);
            CommitBacked(w, Commit(p.request, Data(w, a.member), p.verifiedAt, r.1.id, r.0[r.1.id]))
  {
    var i :| i in w.issues && PreviewOf(i, p.request, p.verifiedAt) && c.digest(i.data) == p.expected;
    assert p.expected != "";
    assert TrimSpace("") == "";
    assert Gate(w.rows, a, f) == None;
    assert c.digest(Data(w, a.member)) == c.digest(i.data);
    assert Data(w, a.member) == i.data;
    hide PreviewOf, TrimSpace, Insertable, AfterClose;
  }

  lemma StepKeeps(c: Crypto, w: World, s: Step)
    requires Ideal(c) && Invariant(c, w) && Possible(c, w, s)
    ensures Invariant(c, Next(c, w, s))
  {
    match s
    case ElsewhereChange(rows, definitions) =>
      hide PreviewOf;
      var w' := Next(c, w, s);
      forall p | p in w'.pending ensures PendingBacked(c, w', p) { assert PendingBacked(c, w, p); }
      forall k | k in w'.commits ensures CommitBacked(w', k) { assert CommitBacked(w, k); }
    case Preview(subject, firstVersion, now) =>
      hide Invariant;
      if firstVersion == c.digest(Data(w, subject.member)) { IssuesKeepBacking(c, w, Issue(subject, Data(w, subject.member), now)); }
    case Check(token, request, now) =>
      var v := Verify(c.signer, token, c.binding(DatedSubject(request)), now);
      if v.Some? {
        CheckedHasPreview(c, w, token, request, now);
        hide Invariant, Verify;
        PendingKeeps(c, w, Pending(request, v.value, now));
      }
    case Write(index, facts) =>
      WriteKeepsInvariant(c, w, index, facts);
  }

  lemma WriteKeepsInvariant(c: Crypto, w: World, index: nat, facts: Facts)
    requires Ideal(c) && Invariant(c, w) && FactsHold(c, w, facts)
    ensures Invariant(c, Next(c, w, Step.Write(index, facts)))
  {
    var w' := Next(c, w, Step.Write(index, facts));
    if w' != w {
      var p := w.pending[index];
      var a := AssignmentOf(p.request, p.expected).value;
      assert p in w.pending;
      CommittedOnExpected(c, w, p, a, facts);
      var k := w'.commits[|w.commits|];
      hide PreviewOf, AssignmentOf, Written, Ideal, FactsHold;
      forall q | q in w'.pending ensures PendingBacked(c, w', q) { assert PendingBacked(c, w, q); }
      forall q | q in w'.commits ensures CommitBacked(w', q) { assert CommitBacked(w, q); }
    }
  }

  // ----- whole runs -----

  function RunFrom(c: Crypto, w: World, steps: seq<Step>): World
    decreases |steps|
  {
    if steps == [] then w else Next(c, RunFrom(c, w, steps[..|steps| - 1]), steps[|steps| - 1])
  }

  ghost predicate PossibleRun(c: Crypto, w: World, steps: seq<Step>)
  {
    forall i :: 0 <= i < |steps| ==> Possible(c, RunFrom(c, w, steps[..i]), steps[i])
  }

  function Start(rows: Rows, definitions: nat): World { World(rows, definitions, [], [], []) }

  /** Main result: in every run, a committed write repeats a preview less than 15 minutes old, made on the same data. */
  lemma {:induction false} CommitsArePreviewed(c: Crypto, rows: Rows, definitions: nat, steps: seq<Step>)
    requires Ideal(c) && PossibleRun(c, Start(rows, definitions), steps)
    ensures Invariant(c, RunFrom(c, Start(rows, definitions), steps))
    decreases |steps|
  {
    if steps != [] {
      var w := Start(rows, definitions);
      var n := |steps| - 1;
      forall i | 0 <= i < n ensures Possible(c, RunFrom(c, w, steps[..n][..i]), steps[..n][i]) {
        assert steps[..n][..i] == steps[..i];
      }
      CommitsArePreviewed(c, rows, definitions, steps[..n]);
      hide Invariant, Next, Ideal;
      StepKeeps(c, RunFrom(c, w, steps[..n]), steps[n]);
    }
  }

  /** A confirmation with the preview's own token passes the check exactly while it is fresh and nothing has changed. */
  lemma CheckPassesIff(c: Crypto, w: World, i: Issue, request: Request, now: int)
    requires Ideal(c) && i.subject == DatedSubject(request) && Int64(i.at + Lifetime)
    ensures Next(c, w, Check(IssueToken(c, i), request, now)) != w <==> i.at <= now < i.at + Lifetime && i.data == Data(w, request.member)
  {
    SignVerify(c.signer, c.binding(i.subject), c.digest(i.data), i.at, c.binding(DatedSubject(request)), now);
    hide Verify, Sign;
  }

  // ----- the handler -----

  class Handler {
    const crypto: Crypto
    var rows: Rows
    var definitions: nat
    ghost var issues: seq<Issue>
    var pending: seq<Pending>
    ghost var commits: seq<Commit>

    ghost function Contents(): World
      reads this
    {
      World(rows, definitions, issues, pending, commits)
    }

    constructor (crypto: Crypto, rows: Rows, definitions: nat)
      ensures this.crypto == crypto && Contents() == Start(rows, definitions)
    {
      this.crypto, this.rows, this.definitions := crypto, rows, definitions;
      issues, pending, commits := [], [], [];
    }

    function Current(member: Id): string
      reads this
    {
      crypto.digest(VersionData(rows, member, definitions))
    }

    /** Post without confirmation: a token is handed out when both version reads agree. */
    method PostPreview(request: Request, firstVersion: string, now: int) returns (token: Option<string>)
      modifies this
      ensures Contents() == Next(crypto, old(Contents()), Preview(DatedSubject(request), firstVersion, now))
      ensures token.Some? <==> firstVersion == crypto.digest(VersionData(old(rows), request.member, old(definitions)))
      ensures token.Some? <==> |issues| > |old(issues)|
      ensures token.Some? ==> token.value == IssueToken(crypto, issues[|issues| - 1])
    {
      var after := Current(request.member);
      if after != firstVersion { return None; }
      issues := issues + [Issue(DatedSubject(request), VersionData(rows, request.member, definitions), now)];
      return Some(Sign(crypto.signer, crypto.binding(DatedSubject(request)), firstVersion, now));
    }

    /** Post with confirmation, up to the call of the store. */
    method PostConfirm(request: Request, token: string, now: int) returns (admitted: bool)
      modifies this
      ensures Contents() == Next(crypto, old(Contents()), Check(token, request, now))
      ensures admitted <==>
              Verify(crypto.signer, token, crypto.binding(DatedSubject(request)), now)
              == Some(crypto.digest(VersionData(old(rows), request.member, old(definitions))))
      ensures admitted <==> Contents() != old(Contents())
    {
      var version := Current(request.member);
      var expected := Verify(crypto.signer, token, crypto.binding(DatedSubject(request)), now);
      if expected == None || expected.value != version { return false; }
      pending := pending + [Pending(request, expected.value, now)];
      return true;
    }

    /** The store's transaction for an admitted confirmation. */
    method WriteAdmitted(index: nat, facts: Facts) returns (outcome: Outcome)
      requires index < |pending|
      modifies this
      ensures Contents() == Next(crypto, old(Contents()), Step.Write(index, facts))
      ensures outcome.Committed? <==> Contents() != old(Contents())
    {
      var p := pending[index];
      var a := AssignmentOf(p.request, p.expected);
      if a == None { return DatabaseError; }
      var data := VersionData(rows, a.value.member, definitions);
      var r := Written(rows, a.value, facts);
      if r.1.Committed? && r.1.id in r.0 {
        commits := commits + [Commit(p.request, data, p.verifiedAt, r.1.id, r.0[r.1.id])];
        rows := r.0;
        return r.1;
      }
      return if r.1.Committed? then DatabaseError else r.1;
    }
  }
}
