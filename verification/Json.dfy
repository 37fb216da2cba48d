/** JSON documents and the canonical printer shared by the Terraform scripts. */
module Json {
  import opened Text
  import opened Sorting

  /** A parsed document. Numbers keep their printed form; an object is a key-to-value map. */
  datatype Value =
    | Null
    | Bool(b: bool)
    | Num(lexeme: string)
    | Str(s: string)
    | Arr(items: seq<Value>)
    | Obj(fields: map<string, Value>)
  {
    /** dict.get(key): the entry, or null for a missing key or a value that is not an object. */
    function Get(key: string): (v: Value)
      ensures v == Null || v < this
    {
      if Obj? && key in fields then fields[key] else Null
    }

    predicate Has(key: string) { Obj? && key in fields }
  }

  // ----- well-formed numbers -----

  predicate NumChar(c: char) { IsDigit(c) || c in "+-.eE" }

  /** Every number of RFC 8259 section 6 is of this form. */
  predicate NumberLexeme(s: string)
  {
    s != [] && (IsDigit(s[0]) || s[0] == '-') && forall i :: 0 <= i < |s| ==> NumChar(s[i])
  }

  predicate WellFormed(v: Value)
  {
    match v
    case Num(lexeme) => NumberLexeme(lexeme)
    case Arr(items) => forall x :: x in items ==> WellFormed(x)
    case Obj(fields) => forall k :: k in fields ==> WellFormed(fields[k])
    case _ => true
  }

  // ----- keys in sorted order -----

  predicate IsLeast(k: string, keys: set<string>) { k in keys && forall o :: o in keys ==> Leq(k, o) }

  lemma LeastExists(keys: set<string>)
    requires keys != {}
    ensures exists k :: IsLeast(k, keys)
  {
    var k :| k in keys;
    var rest := keys - {k};
    LeqReflexive(k);
    if rest == {} {
      assert keys == {k} && IsLeast(k, keys);
    } else {
      LeastExists(rest);
      var m :| IsLeast(m, rest);
      LeqTotal(k, m);
      forall o | o in keys ensures Leq(if Leq(k, m) then k else m, o) {
        if o in rest && Leq(k, m) { LeqTransitive(k, m, o); }
      }
      assert IsLeast(if Leq(k, m) then k else m, keys);
    }
  }

  lemma LeastUnique(k: string, o: string, keys: set<string>)
    requires IsLeast(k, keys) && IsLeast(o, keys)
    ensures k == o
  {
    LeqAntisymmetric(k, o);
  }

  /** sorted(d): the keys in ascending code-point order. */
  function SortedKeys(keys: set<string>): (r: seq<string>)
    ensures |r| == |keys| && forall k :: k in r <==> k in keys
    ensures forall i, j :: 0 <= i < j < |r| ==> r[i] != r[j]
  {
    if keys == {} then []
    else
      LeastExists(keys);
      assert forall a, b :: IsLeast(a, keys) && IsLeast(b, keys) ==> a == b by {
        forall a, b | IsLeast(a, keys) && IsLeast(b, keys) ensures a == b { LeastUnique(a, b, keys); }
      }
      var k :| k in keys && IsLeast(k, keys);
      [k] + SortedKeys(keys - {k})
  }

  lemma {:induction false} SortedKeysAscend(keys: set<string>)
    ensures Sorted(SortedKeys(keys), Leq)
    decreases |keys|
  {
    if keys != {} {
      var r := SortedKeys(keys);
      var k := r[0];
      assert k in r;
      var rest := keys - {k};
      SortedKeysAscend(rest);
      LeastExists(keys);
      var w :| IsLeast(w, keys);
      assert r[1..] == SortedKeys(rest) && IsLeast(k, keys) by { FirstKey(keys, w); }
      forall i, j | 0 <= i < j < |r| ensures Leq(r[i], r[j]) {
        assert r[j] in r;
        if i > 0 { assert r[i] == r[1..][i - 1] && r[j] == r[1..][j - 1]; }
      }
    }
  }

  lemma FirstKey(keys: set<string>, w: string)
    requires IsLeast(w, keys)
    ensures SortedKeys(keys) != [] && SortedKeys(keys)[0] == w && SortedKeys(keys)[1..] == SortedKeys(keys - {w})
  {
    forall o | IsLeast(o, keys) ensures o == w { LeastUnique(o, w, keys); }
  }

  lemma LeqIsTotal()
    ensures TotalPreorder(Leq)
  {
    forall x: string, y: string ensures Leq(x, y) || Leq(y, x) { LeqTotal(x, y); }
    forall x: string, y: string, z: string | Leq(x, y) && Leq(y, z) ensures Leq(x, z) { LeqTransitive(x, y, z); }
  }

  /** Sorting a list of the keys gives the keys in order, whatever order they were listed in. */
  lemma SortedListOfKeys(xs: seq<string>, keys: set<string>)
    requires Distinct(xs) && forall x :: x in xs <==> x in keys
    ensures Sort(xs, Leq) == SortedKeys(keys)
  {
    SortedKeysAscend(keys);
    LeqIsTotal();
    SortSorts(xs, Leq);
    SameMembersSameMultiset(xs, SortedKeys(keys));
    forall x, y | x in Sort(xs, Leq) && y in Sort(xs, Leq) && Leq(x, y) && Leq(y, x) ensures x == y { LeqAntisymmetric(x, y); }
    SortedUnique(Sort(xs, Leq), SortedKeys(keys), Leq);
  }

  // ----- printer -----

  const HexDigits := "0123456789abcdef"

  /** json.dumps(c, ensure_ascii=False) without the quotation marks. */
  function EscapeChar(c: char): (s: string)
    ensures s != [] && s[0] != '"'
  {
    if c == '"' then "\\\""
    else if c == '\\' then "\\\\"
    else if c == '\n' then "\\n"
    else if c == '\r' then "\\r"
    else if c == '\t' then "\\t"
    else if c as int == 8 then "\\b"
    else if c as int == 12 then "\\f"
    else if c as int < 32 then "\\u00" + [HexDigits[c as int / 16], HexDigits[c as int % 16]]
    else [c]
  }

  function Escape(s: string): string
  {
    if s == [] then [] else EscapeChar(s[0]) + Escape(s[1..])
  }

  function Quote(s: string): string { "\"" + Escape(s) + "\"" }

  /** Text without quotation marks, backslashes and control characters stands for itself, in whatever script. */
  lemma PlainText(s: string)
    requires forall i :: 0 <= i < |s| ==> s[i] != '"' && s[i] != '\\' && s[i] as int >= 32
    ensures Quote(s) == "\"" + s + "\""
  {
    EscapesNothing(s);
  }

  lemma {:induction false} EscapesNothing(s: string)
    requires forall i :: 0 <= i < |s| ==> s[i] != '"' && s[i] != '\\' && s[i] as int >= 32
    ensures Escape(s) == s
  {
    if s != [] {
      EscapesNothing(s[1..]);
      assert s == [s[0]] + s[1..];
    }
  }

  /** canonical_json. */
  function Print(v: Value): string
    decreases v, 0
  {
    match v
    case Null => "null"
    case Bool(b) => if b then "true" else "false"
    case Num(lexeme) => lexeme
    case Str(s) => Quote(s)
    case Arr(items) => "[" + PrintItems(items) + "]"
    case Obj(fields) => "{" + PrintFields(v, SortedKeys(fields.Keys)) + "}"
  }

  function PrintItems(items: seq<Value>): string
    decreases items, 0
  {
    if items == [] then ""
    else if |items| == 1 then Print(items[0])
    else Print(items[0]) + "," + PrintItems(items[1..])
  }

  function PrintFields(v: Value, keys: seq<string>): string
    requires v.Obj? && forall k :: k in keys ==> k in v.fields
    decreases v, 0, |keys|
  {
    if keys == [] then ""
    else
      var entry := Quote(keys[0]) + ":" + Print(v.fields[keys[0]]);
      if |keys| == 1 then entry else entry + "," + PrintFields(v, keys[1..])
  }

  // ----- reader: inverts the printer -----

  function HexValue(c: char): (h: nat)
    ensures h < 16
  {
    if IsDigit(c) then c as int - '0' as int
    else if 'a' <= c <= 'f' then c as int - 'a' as int + 10
    else 0
  }

  /** One possibly escaped character. */
  function ReadChar(s: string): (r: Option<(char, string)>)
    ensures r.Some? ==> |r.value.1| < |s|
  {
    if s == [] || s[0] == '"' then None
    else if s[0] != '\\' then Some((s[0], s[1..]))
    else if |s| < 2 then None
    else
      match s[1]
      case '"' => Some(('"', s[2..]))
      case '\\' => Some(('\\', s[2..]))
      case 'n' => Some(('\n', s[2..]))
      case 'r' => Some(('\r', s[2..]))
      case 't' => Some(('\t', s[2..]))
      case 'b' => Some((8 as char, s[2..]))
      case 'f' => Some((12 as char, s[2..]))
      case 'u' =>
        if |s| >= 6 && s[2] == '0' && s[3] == '0'
        then Some(((16 * HexValue(s[4]) + HexValue(s[5])) as char, s[6..]))
        else None
      case _ => None
  }

  /** The characters up to and including the closing quotation mark. */
  function ReadString(s: string): (r: Option<(string, string)>)
    ensures r.Some? ==> |r.value.1| < |s|
    decreases |s|
  {
    if s == [] then None
    else if s[0] == '"' then Some(("", s[1..]))
    else
      match ReadChar(s)
      case None => None
      case Some((c, rest)) =>
        match ReadString(rest)
        case None => None
        case Some((tail, rest')) => Some(([c] + tail, rest'))
  }

  function NumSpan(s: string): (n: nat)
    ensures n <= |s|
  {
    if s == [] || !NumChar(s[0]) then 0 else 1 + NumSpan(s[1..])
  }

  function ReadLiteral(s: string, word: string, v: Value): (r: Option<(Value, string)>)
    requires word != []
    ensures r.Some? ==> |r.value.1| < |s|
  {
    if StartsWith(s, word) then Some((v, s[|word|..])) else None
  }

  function Read(s: string): (r: Option<(Value, string)>)
    ensures r.Some? ==> |r.value.1| < |s|
    decreases |s|, 2
  {
    if s == [] then None
    else if s[0] == 'n' then ReadLiteral(s, "null", Null)
    else if s[0] == 't' then ReadLiteral(s, "true", Bool(true))
    else if s[0] == 'f' then ReadLiteral(s, "false", Bool(false))
    else if s[0] == '"' then
      (match ReadString(s[1..])
       case None => None
       case Some((str, rest)) => Some((Str(str), rest)))
    else if s[0] == '[' then
      if StartsWith(s[1..], "]") then Some((Arr([]), s[2..]))
      else
        (match ReadItems(s[1..])
         case None => None
         case Some((items, rest)) => Some((Arr(items), rest)))
    else if s[0] == '{' then
      if StartsWith(s[1..], "}") then Some((Obj(map[]), s[2..]))
      else
        (match ReadFields(s[1..], map[])
         case None => None
         case Some((fields, rest)) => Some((Obj(fields), rest)))
    else if NumSpan(s) > 0 then Some((Num(s[..NumSpan(s)]), s[NumSpan(s)..]))
    else None
  }

  function ReadItems(s: string): (r: Option<(seq<Value>, string)>)
    ensures r.Some? ==> |r.value.1| < |s|
    decreases |s|, 3
  {
    match Read(s)
    case None => None
    case Some((item, rest)) =>
      if StartsWith(rest, "]") then Some(([item], rest[1..]))
      else if !StartsWith(rest, ",") then None
      else
        match ReadItems(rest[1..])
        case None => None
        case Some((items, rest')) => Some(([item] + items, rest'))
  }

  function ReadFields(s: string, sofar: map<string, Value>): (r: Option<(map<string, Value>, string)>)
    ensures r.Some? ==> |r.value.1| < |s|
    decreases |s|, 3
  {
    if !StartsWith(s, "\"") then None
    else
      match ReadString(s[1..])
      case None => None
      case Some((key, rest)) =>
        if !StartsWith(rest, ":") then None
        else
          match Read(rest[1..])
          case None => None
          case Some((v, rest')) =>
            if StartsWith(rest', "}") then Some((sofar[key := v], rest'[1..]))
            else if !StartsWith(rest', ",") then None
            else ReadFields(rest'[1..], sofar[key := v])
  }

  // ----- the reader inverts the printer -----

  /** A backslash and a letter. */
  lemma ReadPair(x: char, c: char, rest: string)
    requires EscapeChar(c) == ['\\', x] && ReadChar(['\\', x]) == Some((c, ""))
    ensures ReadChar(EscapeChar(c) + rest) == Some((c, rest))
  {
    hide EscapeChar, HexValue;
    var s := ['\\', x] + rest;
    assert s[0] == '\\' && s[1] == x && s[2..] == rest;
  }

  lemma HexRoundTrip(n: nat)
    requires n < 16
    ensures HexValue(HexDigits[n]) == n
  {
  }

  /** Four hexadecimal digits of which the first two are zero. */
  lemma ReadControl(c: char, rest: string)
    requires c as int < 32 && EscapeChar(c) == "\\u00" + [HexDigits[c as int / 16], HexDigits[c as int % 16]]
    ensures ReadChar(EscapeChar(c) + rest) == Some((c, rest))
  {
    HexRoundTrip(c as int / 16);
    HexRoundTrip(c as int % 16);
    hide EscapeChar, HexValue;
    var s := EscapeChar(c) + rest;
    assert s[0] == '\\' && s[1] == 'u' && s[2] == '0' && s[3] == '0';
    assert s[4] == HexDigits[c as int / 16] && s[5] == HexDigits[c as int % 16] && s[6..] == rest;
  }

  lemma ReadPlain(c: char, rest: string)
    requires EscapeChar(c) == [c] && c != '"' && c != '\\'
    ensures ReadChar(EscapeChar(c) + rest) == Some((c, rest))
  {
    hide EscapeChar, HexValue;
    assert ([c] + rest)[1..] == rest;
  }

  lemma ReadEscapedChar(c: char, rest: string)
    ensures ReadChar(EscapeChar(c) + rest) == Some((c, rest))
  {
    if c == '"' { ReadPair('"', c, rest); }
    else if c == '\\' { ReadPair('\\', c, rest); }
    else if c == '\n' { ReadPair('n', c, rest); }
    else if c == '\r' { ReadPair('r', c, rest); }
    else if c == '\t' { ReadPair('t', c, rest); }
    else if c as int == 8 { ReadPair('b', c, rest); }
    else if c as int == 12 { ReadPair('f', c, rest); }
    else if c as int < 32 { ReadControl(c, rest); }
    else { ReadPlain(c, rest); }
  }

  lemma {:induction false} ReadEscaped(str: string, rest: string)
    ensures ReadString(Escape(str) + "\"" + rest) == Some((str, rest))
  {
    var s := Escape(str) + "\"" + rest;
    if str == [] {
      assert s == "\"" + rest;
    } else {
      var tail := Escape(str[1..]) + "\"" + rest;
      assert s == EscapeChar(str[0]) + tail;
      assert s[0] == EscapeChar(str[0])[0];
      ReadEscapedChar(str[0], tail);
      ReadEscaped(str[1..], rest);
      assert [str[0]] + str[1..] == str;
    }
  }

  /** What may follow a printed value: nothing that continues a number. */
  predicate Delimited(rest: string) { rest == [] || !NumChar(rest[0]) }

  lemma {:induction false} NumSpanExact(lexeme: string, rest: string)
    requires (forall i :: 0 <= i < |lexeme| ==> NumChar(lexeme[i])) && Delimited(rest)
    ensures NumSpan(lexeme + rest) == |lexeme|
  {
    if lexeme == [] {
      assert lexeme + rest == rest;
    } else {
      assert (lexeme + rest)[1..] == lexeme[1..] + rest;
      NumSpanExact(lexeme[1..], rest);
    }
  }

  /** A printed value never starts with a closing bracket or brace. */
  lemma PrintStart(v: Value)
    requires WellFormed(v)
    ensures Print(v) != [] && Print(v)[0] != ']' && Print(v)[0] != '}' && Print(v)[0] != ','
  {
  }

  /** The value kinds that hold no other values. */
  lemma ReadPrintedLeaf(v: Value, rest: string)
    requires WellFormed(v) && Delimited(rest) && !v.Arr? && !v.Obj?
    ensures Read(Print(v) + rest) == Some((v, rest))
  {
    match v
    case Null => ReadNull(rest);
    case Bool(b) => ReadBool(b, rest);
    case Num(lexeme) => ReadNumber(lexeme, rest);
    case Str(str) => ReadText(str, rest);
  }

  lemma ReadNull(rest: string)
    ensures Read("null" + rest) == Some((Null, rest))
  {
    hide ReadItems, ReadFields, ReadString, NumSpan;
    assert ("null" + rest)[4..] == rest && ("null" + rest)[..4] == "null";
  }

  lemma ReadBool(b: bool, rest: string)
    ensures Read(Print(Bool(b)) + rest) == Some((Bool(b), rest))
  {
    hide ReadItems, ReadFields, ReadString, NumSpan;
    var word := if b then "true" else "false";
    assert (word + rest)[|word|..] == rest && (word + rest)[..|word|] == word;
  }

  lemma ReadNumber(lexeme: string, rest: string)
    requires NumberLexeme(lexeme) && Delimited(rest)
    ensures Read(lexeme + rest) == Some((Num(lexeme), rest))
  {
    NumSpanExact(lexeme, rest);
    hide ReadItems, ReadFields, ReadString, NumSpan, Delimited;
    var s := lexeme + rest;
    assert s[0] == lexeme[0] && s[..|lexeme|] == lexeme && s[|lexeme|..] == rest;
  }

  lemma ReadText(str: string, rest: string)
    ensures Read(Quote(str) + rest) == Some((Str(str), rest))
  {
    ReadEscaped(str, rest);
    hide ReadItems, ReadFields, ReadString, NumSpan, Escape;
    var s := Quote(str) + rest;
    assert s[0] == '"' && s[1..] == Escape(str) + "\"" + rest;
  }

  lemma Enclose(open: string, body: string, close: string, rest: string)
    ensures open + body + close + rest == open + (body + close + rest)
  {
  }

  lemma ReadBracketed(items: seq<Value>, body: string, rest: string)
    requires body != [] && body[0] != ']' && ReadItems(body) == Some((items, rest))
    ensures Read("[" + body) == Some((Arr(items), rest))
  {
    hide ReadItems, ReadFields, ReadString, NumSpan;
    assert ("[" + body)[1..] == body;
  }

  lemma ReadBrackets(items: seq<Value>, rest: string)
    requires items == [] || (WellFormed(items[0]) && ReadItems(PrintItems(items) + "]" + rest) == Some((items, rest)))
    ensures Read(Print(Arr(items)) + rest) == Some((Arr(items), rest))
  {
    var body := PrintItems(items) + "]" + rest;
    Enclose("[", PrintItems(items), "]", rest);
    if items == [] {
      ReadEmptyBrackets(rest);
    } else {
      hide Read, ReadItems;
      PrintStart(items[0]);
      assert body[0] == Print(items[0])[0];
      ReadBracketed(items, body, rest);
    }
  }

  lemma ReadEmptyBrackets(rest: string)
    ensures Read("[" + ("" + "]" + rest)) == Some((Arr([]), rest))
  {
    var s := "[" + ("" + "]" + rest);
    assert s[1..] == "]" + rest && s[2..] == rest;
  }

  lemma ReadBraced(fields: map<string, Value>, body: string, rest: string)
    requires StartsWith(body, "\"") && ReadFields(body, map[]) == Some((fields, rest))
    ensures Read("{" + body) == Some((Obj(fields), rest))
  {
    hide ReadItems, ReadFields, ReadString, NumSpan;
    assert ("{" + body)[1..] == body;
  }

  lemma FieldsStart(v: Value, keys: seq<string>)
    requires v.Obj? && keys != [] && forall k :: k in keys ==> k in v.fields
    ensures PrintFields(v, keys) != [] && PrintFields(v, keys)[0] == '"'
  {
  }

  /** The text between two braces, which is empty or starts with a key. */
  lemma ReadBetween(body: string, fields: map<string, Value>, rest: string)
    requires if body == "" then fields == map[] else body[0] == '"' && ReadFields(body + "}" + rest, map[]) == Some((fields, rest))
    ensures Read("{" + body + "}" + rest) == Some((Obj(fields), rest))
  {
    hide Read, ReadFields;
    Enclose("{", body, "}", rest);
    if body == "" {
      assert body + "}" + rest == "}" + rest;
      ReadEmptyBraces(rest);
    } else {
      ReadBraced(fields, body + "}" + rest, rest);
    }
  }

  lemma ReadBraces(v: Value, keys: seq<string>, rest: string)
    requires v.Obj? && keys == SortedKeys(v.fields.Keys)
    requires keys == [] || ReadFields(PrintFields(v, keys) + "}" + rest, map[]) == Some((v.fields, rest))
    ensures Read(Print(v) + rest) == Some((v, rest))
  {
    if keys == [] { NoFields(v); } else { FieldsStart(v, keys); }
    ReadBetween(PrintFields(v, keys), v.fields, rest);
    hide Read, ReadFields, PrintFields, SortedKeys;
  }

  lemma NoFields(v: Value)
    requires v.Obj? && SortedKeys(v.fields.Keys) == []
    ensures v.fields == map[] && PrintFields(v, []) == ""
  {
    hide SortedKeys;
    assert |v.fields.Keys| == 0;
  }

  lemma ReadEmptyBraces(rest: string)
    ensures Read("{" + ("" + "}" + rest)) == Some((Obj(map[]), rest))
  {
    var s := "{" + ("" + "}" + rest);
    assert s[1..] == "}" + rest && s[2..] == rest;
  }

  lemma AllEntries(fields: map<string, Value>)
    ensures map[] + (map k | k in SortedKeys(fields.Keys) :: fields[k]) == fields
  {
  }

  lemma {:induction false} ReadPrinted(v: Value, rest: string)
    requires WellFormed(v) && Delimited(rest)
    ensures Read(Print(v) + rest) == Some((v, rest))
    decreases v, 0
  {
    match v
    case Arr(items) =>
      if items != [] { ReadPrintedItems(items, rest); }
      ReadBrackets(items, rest);
    case Obj(fields) =>
      ReadPrintedObject(v, rest);
    case _ => ReadPrintedLeaf(v, rest);
  }

  lemma {:induction false} ReadPrintedObject(v: Value, rest: string)
    requires v.Obj? && WellFormed(v)
    ensures Read(Print(v) + rest) == Some((v, rest))
    decreases v, 0, |v.fields| + 1
  {
    var keys := SortedKeys(v.fields.Keys);
    if keys != [] {
      ReadPrintedFields(v, keys, map[], rest);
      AllEntries(v.fields);
    }
    ReadBraces(v, keys, rest);
  }

  lemma {:induction false} ReadPrintedItems(items: seq<Value>, rest: string)
    requires items != [] && forall x :: x in items ==> WellFormed(x)
    ensures ReadItems(PrintItems(items) + "]" + rest) == Some((items, rest))
    decreases items, 0
  {
    hide WellFormed, Print, Read, ReadItems;
    var s := PrintItems(items) + "]" + rest;
    if |items| == 1 {
      assert s == Print(items[0]) + ("]" + rest);
      ReadPrinted(items[0], "]" + rest);
      ReadLastItem(s, items[0], rest);
      assert [items[0]] == items;
    } else {
      var tail := PrintItems(items[1..]) + "]" + rest;
      assert s == Print(items[0]) + ("," + tail);
      ReadPrinted(items[0], "," + tail);
      ReadPrintedItems(items[1..], rest);
      ReadNextItem(s, items[0], tail, items[1..], rest);
      assert items == [items[0]] + items[1..];
    }
  }

  lemma ReadLastItem(s: string, x: Value, rest: string)
    requires Read(s) == Some((x, "]" + rest))
    ensures ReadItems(s) == Some(([x], rest))
  {
    hide Read;
    assert ("]" + rest)[1..] == rest;
  }

  lemma ReadNextItem(s: string, x: Value, tail: string, xs: seq<Value>, rest: string)
    requires Read(s) == Some((x, "," + tail)) && ReadItems(tail) == Some((xs, rest))
    ensures ReadItems(s) == Some(([x] + xs, rest))
  {
    hide Read;
    assert ("," + tail)[1..] == tail;
  }

  lemma {:induction false} ReadPrintedFields(v: Value, keys: seq<string>, sofar: map<string, Value>, rest: string)
    requires v.Obj? && WellFormed(v) && keys != [] && forall k :: k in keys ==> k in v.fields
    ensures ReadFields(PrintFields(v, keys) + "}" + rest, sofar)
         == Some((sofar + (map k | k in keys :: v.fields[k]), rest))
    decreases v, 0, |keys|
  {
    MapExtend(v.fields, keys, sofar);
    if |keys| == 1 {
      ReadPrinted(v.fields[keys[0]], "}" + rest);
      FieldsLast(v, keys, sofar, rest);
    } else {
      var next := PrintFields(v, keys[1..]) + "}" + rest;
      ReadPrinted(v.fields[keys[0]], "," + next);
      FieldsNext(v, keys, sofar, rest, next);
      ReadPrintedFields(v, keys[1..], sofar[keys[0] := v.fields[keys[0]]], rest);
    }
  }

  lemma FieldsLast(v: Value, keys: seq<string>, sofar: map<string, Value>, rest: string)
    requires v.Obj? && |keys| == 1 && keys[0] in v.fields
    requires Read(Print(v.fields[keys[0]]) + ("}" + rest)) == Some((v.fields[keys[0]], "}" + rest))
    ensures ReadFields(PrintFields(v, keys) + "}" + rest, sofar) == Some((sofar[keys[0] := v.fields[keys[0]]], rest))
  {
    hide Read, ReadFields, Print, PrintFields, Escape;
    var x := v.fields[keys[0]];
    assert "" + "}" + rest == "}" + rest;
    FirstEntry(v, keys, "", rest, "}" + rest);
    ReadLastEntry(keys[0], Print(x) + ("}" + rest), x, rest, sofar);
  }

  lemma FieldsNext(v: Value, keys: seq<string>, sofar: map<string, Value>, rest: string, next: string)
    requires v.Obj? && |keys| > 1 && forall k :: k in keys ==> k in v.fields
    requires next == PrintFields(v, keys[1..]) + "}" + rest
    requires Read(Print(v.fields[keys[0]]) + ("," + next)) == Some((v.fields[keys[0]], "," + next))
    ensures ReadFields(PrintFields(v, keys) + "}" + rest, sofar) == ReadFields(next, sofar[keys[0] := v.fields[keys[0]]])
  {
    hide Read, ReadFields, Print, PrintFields, Escape;
    var x := v.fields[keys[0]];
    var tail := "," + PrintFields(v, keys[1..]);
    assert "," + next == tail + "}" + rest;
    FirstEntry(v, keys, tail, rest, "," + next);
    ReadNextEntry(keys[0], Print(x) + ("," + next), x, next, sofar);
  }

  lemma FirstEntry(v: Value, keys: seq<string>, tail: string, rest: string, after: string)
    requires v.Obj? && keys != [] && forall k :: k in keys ==> k in v.fields
    requires tail == if |keys| == 1 then "" else "," + PrintFields(v, keys[1..])
    requires after == tail + "}" + rest
    ensures PrintFields(v, keys) + "}" + rest
         == "\"" + (Escape(keys[0]) + "\"" + (":" + (Print(v.fields[keys[0]]) + after)))
  {
    var entry := Quote(keys[0]) + ":" + Print(v.fields[keys[0]]);
    assert PrintFields(v, keys) == entry + tail;
    Regroup(Escape(keys[0]), Print(v.fields[keys[0]]), tail, rest);
  }

  lemma MapExtend(fields: map<string, Value>, keys: seq<string>, sofar: map<string, Value>)
    requires keys != [] && forall k :: k in keys ==> k in fields
    ensures sofar[keys[0] := fields[keys[0]]] + (map k | k in keys[1..] :: fields[k])
         == sofar + (map k | k in keys :: fields[k])
    ensures |keys| == 1 ==> sofar[keys[0] := fields[keys[0]]] == sofar + (map k | k in keys :: fields[k])
  {
    assert keys == [keys[0]] + keys[1..];
  }

  lemma Regroup(key: string, value: string, tail: string, rest: string)
    ensures ("\"" + key + "\"") + ":" + value + tail + "}" + rest
         == "\"" + (key + "\"" + (":" + (value + (tail + "}" + rest))))
  {
  }

  lemma ReadLastEntry(key: string, body: string, x: Value, rest: string, sofar: map<string, Value>)
    requires Read(body) == Some((x, "}" + rest))
    ensures ReadFields("\"" + (Escape(key) + "\"" + (":" + body)), sofar) == Some((sofar[key := x], rest))
  {
    ReadKey(key, body);
    assert ("}" + rest)[1..] == rest;
  }

  lemma ReadNextEntry(key: string, body: string, x: Value, next: string, sofar: map<string, Value>)
    requires Read(body) == Some((x, "," + next))
    ensures ReadFields("\"" + (Escape(key) + "\"" + (":" + body)), sofar) == ReadFields(next, sofar[key := x])
  {
    ReadKey(key, body);
    assert ("," + next)[1..] == next;
  }

  lemma ReadKey(key: string, body: string)
    ensures ReadString(("\"" + (Escape(key) + "\"" + (":" + body)))[1..]) == Some((key, ":" + body))
    ensures (":" + body)[1..] == body
  {
    assert ("\"" + (Escape(key) + "\"" + (":" + body)))[1..] == Escape(key) + "\"" + (":" + body);
    ReadEscaped(key, ":" + body);
  }

  /** Equal canonical text means equal documents. */
  lemma PrintInjective(a: Value, b: Value)
    requires WellFormed(a) && WellFormed(b)
    ensures Print(a) == Print(b) <==> a == b
  {
    ReadPrinted(a, "");
    ReadPrinted(b, "");
    assert Print(a) + "" == Print(a) && Print(b) + "" == Print(b);
  }

  // ----- ordering documents by their canonical text -----

  predicate PrintLeq(a: Value, b: Value) { Leq(Print(a), Print(b)) }

  lemma PrintLeqIsTotal()
    ensures TotalPreorder(PrintLeq)
  {
    forall x: Value, y: Value ensures PrintLeq(x, y) || PrintLeq(y, x) { LeqTotal(Print(x), Print(y)); }
    forall x: Value, y: Value, z: Value | PrintLeq(x, y) && PrintLeq(y, z) ensures PrintLeq(x, z) {
      LeqTransitive(Print(x), Print(y), Print(z));
    }
  }

  /** Because the printer is injective, different documents never tie. */
  lemma PrintLeqIsStrict(xs: seq<Value>)
    requires forall x :: x in xs ==> WellFormed(x)
    ensures Strict(xs, PrintLeq)
  {
    forall x, y | x in xs && y in xs && PrintLeq(x, y) && PrintLeq(y, x) ensures x == y {
      LeqAntisymmetric(Print(x), Print(y));
      PrintInjective(x, y);
    }
  }

  // ----- one entry of an object -----

  lemma EntryIff<K, V>(a: map<K, V>, b: map<K, V>, key: K, x: V, y: V)
    requires key in a && key in b
    ensures a[key := x] == b[key := y] <==>
            x == y && a.Keys == b.Keys && forall k :: k in a && k != key ==> a[k] == b[k]
  {
    if a[key := x] == b[key := y] {
      assert a[key := x][key] == x && b[key := y][key] == y;
      assert a[key := x].Keys == a.Keys && b[key := y].Keys == b.Keys;
      forall k | k in a && k != key ensures a[k] == b[k] {
        assert a[key := x][k] == a[k] && b[key := y][k] == b[k];
      }
    }
  }

  function UpdateAt(v: Value, key: string, f: Value -> Value): Value
  {
    if v.Has(key) then Obj(v.fields[key := f(v.fields[key])]) else v
  }

  /** a and b agree except that their entries under key are related by eq. */
  ghost predicate EqAt(a: Value, b: Value, key: string, eq: (Value, Value) -> bool)
  {
    a == b ||
    (&& a.Has(key) && b.Has(key) && a.fields.Keys == b.fields.Keys
     && (forall k :: k in a.fields && k != key ==> a.fields[k] == b.fields[k])
     && eq(a.fields[key], b.fields[key]))
  }

  lemma UpdateAtIff(a: Value, b: Value, key: string, f: Value -> Value, eq: (Value, Value) -> bool)
    requires a.Has(key) && b.Has(key) ==> (f(a.fields[key]) == f(b.fields[key]) <==> eq(a.fields[key], b.fields[key]))
    ensures UpdateAt(a, key, f) == UpdateAt(b, key, f) <==> EqAt(a, b, key, eq)
  {
    if a.Has(key) && b.Has(key) {
      EntryIff(a.fields, b.fields, key, f(a.fields[key]), f(b.fields[key]));
    } else if a.Has(key) {
      assert UpdateAt(a, key, f).Has(key);
    } else if b.Has(key) {
      assert UpdateAt(b, key, f).Has(key);
    }
  }

  lemma WellFormedGet(v: Value, key: string)
    requires WellFormed(v)
    ensures WellFormed(v.Get(key))
  {
  }

  lemma UpdateAtIdempotent(v: Value, key: string, f: Value -> Value)
    requires v.Has(key) ==> f(f(v.fields[key])) == f(v.fields[key])
    ensures UpdateAt(UpdateAt(v, key, f), key, f) == UpdateAt(v, key, f)
  {
  }

  lemma UpdateAtWellFormed(v: Value, key: string, f: Value -> Value)
    requires WellFormed(v) && (v.Has(key) ==> WellFormed(f(v.fields[key])))
    ensures WellFormed(UpdateAt(v, key, f))
  {
  }
}
