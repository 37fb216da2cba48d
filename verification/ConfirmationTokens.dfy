/** Signed, expiring tokens that tie a confirmation to a preview. */
module ConfirmationTokens {
  import opened Text

  type Bytes = seq<int>

  /** The keyed hash and the base64url text codec of its result. */
  datatype Signer = Signer(mac: string -> Bytes, encode: Bytes -> string, decode: string -> Option<Bytes>)

  /** The codec reads back what it wrote, and its text has no dot. */
  ghost predicate Lawful(s: Signer)
  {
    forall b: Bytes :: s.decode(s.encode(b)) == Some(b) && '.' !in s.encode(b)
  }

  const Lifetime := 900

  // ----- strconv.FormatInt and strconv.ParseInt -----

  const MaxInt64 := 0x7fff_ffff_ffff_ffff

  predicate Int64(n: int) { -MaxInt64 - 1 <= n <= MaxInt64 }

  function FormatInt(n: int): (s: string)
    ensures '.' !in s
  {
    if n < 0 then "-" + Decimal(-n) else Decimal(n)
  }

  predicate Digits(s: string) { s != [] && forall i :: 0 <= i < |s| ==> IsDigit(s[i]) }

  function ParseInt(s: string): Option<int>
  {
    var signed := s != [] && (s[0] == '-' || s[0] == '+');
    var digits := if signed then s[1..] else s;
    if !Digits(digits) then None
    else
      var magnitude: int := ValueOf(digits);
      var n := if signed && s[0] == '-' then -magnitude else magnitude;
      if Int64(n) then Some(n) else None
  }

  lemma ParseFormatted(n: int)
    requires Int64(n)
    ensures ParseInt(FormatInt(n)) == Some(n)
  {
    var magnitude: nat := if n < 0 then -n else n;
    DecimalValue(magnitude);
    var digits := Decimal(magnitude);
    assert Digits(digits);
    hide Decimal, ValueOf, Int64, Digits;
    if n < 0 {
      assert FormatInt(n)[1..] == digits;
    } else {
      assert FormatInt(n) == digits && IsDigit(digits[0]);
    }
  }

  // ----- tokens -----

  function Payload(binding: string, version: string, expiry: int): string
  {
    Join([binding, version, FormatInt(expiry)], '.')
  }

  /** signClassificationConfirmation at second now. */
  function Sign(s: Signer, binding: string, version: string, now: int): string
  {
    Payload(binding, version, now + Lifetime) + "." + s.encode(s.mac(Payload(binding, version, now + Lifetime)))
  }

  /** verifyClassificationConfirmation at second now: the version, or None for a rejected token. */
  function Verify(s: Signer, token: string, binding: string, now: int): Option<string>
  {
    var parts := Split(token, '.');
    if |parts| != 4 || parts[0] != binding then None
    else
      match ParseInt(parts[2])
      case None => None
      case Some(expiry) =>
        if now >= expiry || expiry > now + Lifetime then None
        else if s.decode(parts[3]) == Some(s.mac(Join(parts[..3], '.'))) then Some(parts[1])
        else None
  }

  lemma JoinLast(a: string, b: string, c: string, d: string)
    ensures Join([a, b, c, d], '.') == Join([a, b, c], '.') + "." + d
  {
    assert [a, b, c, d][1..] == [b, c, d] && [b, c, d][1..] == [c, d] && [c, d][1..] == [d];
    assert [a, b, c][1..] == [b, c] && [b, c][1..] == [c];
    assert Join([c, d], '.') == c + ['.'] + d && Join([b, c], '.') == b + ['.'] + c;
    assert Join([b, c, d], '.') == b + ['.'] + (c + ['.'] + d);
    assert Join([a, b, c, d], '.') == a + ['.'] + (b + ['.'] + (c + ['.'] + d));
    assert Join([a, b, c], '.') == a + ['.'] + (b + ['.'] + c);
  }

  lemma SignedParts(s: Signer, binding: string, version: string, now: int)
    requires Lawful(s) && '.' !in binding && '.' !in version
    ensures var p := Payload(binding, version, now + Lifetime);
            Split(Sign(s, binding, version, now), '.') == [binding, version, FormatInt(now + Lifetime), s.encode(s.mac(p))]
  {
    var p := Payload(binding, version, now + Lifetime);
    var parts := [binding, version, FormatInt(now + Lifetime), s.encode(s.mac(p))];
    JoinLast(parts[0], parts[1], parts[2], parts[3]);
    SplitJoin(parts, '.');
  }

  /** A signed token is accepted for its own binding exactly from its issue until 900 seconds later. */
  lemma SignVerify(s: Signer, binding: string, version: string, issued: int, other: string, now: int)
    requires Lawful(s) && '.' !in binding && '.' !in version && Int64(issued + Lifetime)
    ensures Verify(s, Sign(s, binding, version, issued), other, now)
         == if other == binding && issued <= now < issued + 900 then Some(version) else None
  {
    SignedParts(s, binding, version, issued);
    ParseFormatted(issued + Lifetime);
    var parts := Split(Sign(s, binding, version, issued), '.');
    assert parts[..3] == [binding, version, FormatInt(issued + Lifetime)];
    hide FormatInt, ParseInt, Split, Join, Sign;
  }

  /** The payload whose hash an accepted token carries. */
  lemma VerifiedPayload(s: Signer, token: string, binding: string, now: int)
    requires Verify(s, token, binding, now).Some?
    ensures var parts := Split(token, '.');
            && |parts| == 4 && parts[0] == binding && Verify(s, token, binding, now) == Some(parts[1])
            && ParseInt(parts[2]).Some? && now < ParseInt(parts[2]).value <= now + 900
            && s.decode(parts[3]) == Some(s.mac(Join(parts[..3], '.')))
  {
  }

  /** A payload determines the fields it was made of. */
  lemma PayloadFields(parts: seq<string>, binding: string, version: string, expiry: int)
    requires |parts| == 3 && (forall i :: 0 <= i < 3 ==> '.' !in parts[i]) && '.' !in binding && '.' !in version
    requires Join(parts, '.') == Payload(binding, version, expiry)
    ensures parts == [binding, version, FormatInt(expiry)]
  {
    SplitJoin(parts, '.');
    SplitJoin([binding, version, FormatInt(expiry)], '.');
  }
}
