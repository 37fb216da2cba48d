/** The streaming truncator of captured output: a byte cap and a line cap, fed by chunks. */
module BoundedCapture {

  type Byte = x: int | 0 <= x < 256

  const Newline: Byte := 10

  function Newlines(s: seq<Byte>): (n: nat)
    ensures n <= |s|
  {
    if s == [] then 0 else (if s[0] == Newline then 1 else 0) + Newlines(s[1..])
  }

  /** The beginning of s up to and including the given newline, all of s when it has fewer. */
  function Cut(s: seq<Byte>, lines: int): (r: seq<Byte>)
    ensures |r| <= |s| && r == s[..|r|]
  {
    if s == [] || lines <= 0 then [] else [s[0]] + Cut(s[1..], if s[0] == Newline then lines - 1 else lines)
  }

  function FirstBytes(s: seq<Byte>, count: int): (r: seq<Byte>)
    ensures |r| <= |s| && r == s[..|r|]
  {
    if count <= 0 then [] else if count < |s| then s[..count] else s
  }

  /** What is retained of a whole stream: its first bytes, cut after the last line allowed. */
  function Kept(s: seq<Byte>, maxBytes: int, maxLines: int): (r: seq<Byte>)
    ensures |r| <= |s| && r == s[..|r|]
  {
    Cut(FirstBytes(s, maxBytes), maxLines)
  }

  // ----- what Kept means -----

  lemma {:induction false} CutLength(s: seq<Byte>, lines: int, n: nat)
    requires n <= |s|
    ensures n <= |Cut(s, lines)| <==> n == 0 || Newlines(s[..n - 1]) < lines
  {
    if n > 1 && lines > 0 {
      assert s[..n - 1][1..] == s[1..][..n - 2];
      CutLength(s[1..], if s[0] == Newline then lines - 1 else lines, n - 1);
    } else if n == 1 {
      assert s[..0] == [];
    }
  }

  /**
   * The retained part is the longest beginning that respects both caps: it reaches n bytes exactly when n bytes fit and
   * fewer than the allowed newlines come before the last of them.
   */
  lemma KeptIsLongest(s: seq<Byte>, maxBytes: int, maxLines: int, n: nat)
    requires n <= |s|
    ensures n <= |Kept(s, maxBytes, maxLines)| <==> n == 0 || (n <= maxBytes && Newlines(s[..n - 1]) < maxLines)
  {
    var first := FirstBytes(s, maxBytes);
    if n <= |first| {
      CutLength(first, maxLines, n);
      if n > 0 { assert first[..n - 1] == s[..n - 1]; }
    }
  }

  // ----- appending -----

  lemma {:induction false} NewlinesConcat(s: seq<Byte>, t: seq<Byte>)
    ensures Newlines(s + t) == Newlines(s) + Newlines(t)
  {
    if s == [] {
      assert s + t == t;
    } else {
      assert (s + t)[1..] == s[1..] + t;
      NewlinesConcat(s[1..], t);
    }
  }

  lemma CutHead(s: seq<Byte>, lines: int)
    requires s != [] && lines > 0
    ensures Cut(s, lines) == [s[0]] + Cut(s[1..], if s[0] == Newline then lines - 1 else lines)
  {
  }

  lemma NewlinesHead(s: seq<Byte>)
    requires s != []
    ensures Newlines(s) == (if s[0] == Newline then 1 else 0) + Newlines(s[1..])
  {
  }

  lemma {:induction false} CutConcat(s: seq<Byte>, t: seq<Byte>, lines: int)
    ensures Newlines(s) < lines ==> Cut(s + t, lines) == s + Cut(t, lines - Newlines(s))
    ensures Newlines(s) >= lines ==> Cut(s + t, lines) == Cut(s, lines)
    ensures Newlines(Cut(s, lines)) == (if Newlines(s) < lines then Newlines(s) else if lines <= 0 then 0 else lines)
    ensures Newlines(s) < lines ==> Cut(s, lines) == s
  {
    if s == [] {
      assert s + t == t;
    } else if lines > 0 {
      assert (s + t)[1..] == s[1..] + t;
      var left := if s[0] == Newline then lines - 1 else lines;
      CutConcat(s[1..], t, left);
      CutHead(s, lines);
      CutHead(s + t, lines);
      NewlinesHead(s);
      NewlinesHead(Cut(s, lines));
      hide Cut, Newlines;
      assert Cut(s, lines)[1..] == Cut(s[1..], left);
      assert s == [s[0]] + s[1..];
    }
  }

  /** What one append writes, given what the file holds. */
  function Chunk(file: seq<Byte>, data: seq<Byte>, maxBytes: int, maxLines: int): (r: seq<Byte>)
    ensures |r| <= |data|
  {
    Cut(FirstBytes(data, maxBytes - |file|), maxLines - Newlines(file))
  }

  /** Appending to the retained part of s retains the same as having seen s and the data at once. */
  lemma KeptConcat(s: seq<Byte>, data: seq<Byte>, maxBytes: int, maxLines: int)
    ensures var file := Kept(s, maxBytes, maxLines);
            Kept(s + data, maxBytes, maxLines) == file + Chunk(file, data, maxBytes, maxLines)
  {
    hide Cut, Newlines;
    var first := FirstBytes(s, maxBytes);
    var file := Kept(s, maxBytes, maxLines);
    CutConcat(first, [], maxLines);
    if Newlines(first) >= maxLines {
      var more := MoreBytes(s, data, maxBytes);
      CutConcat(first, more, maxLines);
      CutNothing(FirstBytes(data, maxBytes - |file|), maxLines - Newlines(file));
    } else {
      FirstBytesConcat(s, data, maxBytes);
      CutConcat(first, FirstBytes(data, maxBytes - |first|), maxLines);
    }
  }

  lemma FirstBytesConcat(s: seq<Byte>, data: seq<Byte>, maxBytes: int)
    ensures var first := FirstBytes(s, maxBytes); FirstBytes(s + data, maxBytes) == first + FirstBytes(data, maxBytes - |first|)
  {
  }

  lemma MoreBytes(s: seq<Byte>, data: seq<Byte>, maxBytes: int) returns (more: seq<Byte>)
    ensures FirstBytes(s + data, maxBytes) == FirstBytes(s, maxBytes) + more
  {
    FirstBytesConcat(s, data, maxBytes);
    more := FirstBytes(data, maxBytes - |FirstBytes(s, maxBytes)|);
  }

  lemma CutNothing(s: seq<Byte>, lines: int)
    requires lines <= 0
    ensures Cut(s, lines) == []
  {
  }

  // ----- the class -----

  /** The chunk that append writes: cut to the bytes that remain, then to the lines that remain. */
  method Trim(data: seq<Byte>, bytes: int, lines: int, maxBytes: int, maxLines: int) returns (chunk: seq<Byte>)
    ensures chunk == Cut(FirstBytes(data, maxBytes - bytes), maxLines - lines)
  {
    var remaining := if maxBytes - bytes > 0 then maxBytes - bytes else 0;
    chunk := FirstBytes(data, remaining);
    if lines >= maxLines {
      CutNothing(chunk, maxLines - lines);
      chunk := [];
    } else {
      var count := Newlines(chunk);
      CutConcat(chunk, [], maxLines - lines);
      if count >= maxLines - lines { chunk := CutAfter(chunk, maxLines - lines); }
    }
  }

  class BoundedStream {
    const maxBytes: int
    const maxLines: int
    var file: seq<Byte>
    var bytes: int
    var lines: int
    var overflow: bool
    ghost var received: seq<Byte>

    /** The file is what is retained of everything received, however it was split. */
    ghost predicate Valid()
      reads this
    {
      && file == Kept(received, maxBytes, maxLines)
      && bytes == |file| && lines == Newlines(file)
      && (overflow <==> file != received)
    }

    constructor (maxBytes: int, maxLines: int)
      ensures Valid() && received == [] && this.maxBytes == maxBytes && this.maxLines == maxLines
    {
      this.maxBytes, this.maxLines := maxBytes, maxLines;
      file, bytes, lines, overflow, received := [], 0, 0, false, [];
    }

    method Append(data: seq<Byte>)
      requires Valid()
      modifies this
      ensures Valid() && received == old(received) + data
    {
      var chunk := Trim(data, bytes, lines, maxBytes, maxLines);
      hide Cut, Newlines, FirstBytes, Kept;
      assert chunk == Chunk(file, data, maxBytes, maxLines);
      KeptConcat(received, data, maxBytes, maxLines);
      NewlinesConcat(file, chunk);
      received := received + data;
      file := file + chunk;
      bytes := bytes + |chunk|;
      lines := lines + Newlines(chunk);
      if |chunk| != |data| { overflow := true; }
    }
  }

  lemma CutAt(s: seq<Byte>, lines: int, end: int)
    requires 0 <= end < |s| && s[end] == Newline && Newlines(s[..end + 1]) == lines
    ensures Cut(s, lines) == s[..end + 1]
  {
    assert s[..end + 1] == s[..end] + [Newline];
    NewlinesConcat(s[..end], [Newline]);
    CutLength(s, lines, end + 1);
    if end + 1 < |s| { CutLength(s, lines, end + 2); }
  }

  lemma {:induction false} NoNewlines(s: seq<Byte>)
    ensures Newlines(s) == 0 <==> Newline !in s
  {
    if s != [] { NoNewlines(s[1..]); }
  }

  /** bytes.index for a newline that is there. */
  method IndexOfNewline(chunk: seq<Byte>, start: nat) returns (i: nat)
    requires start <= |chunk| && Newline in chunk[start..]
    ensures start <= i < |chunk| && chunk[i] == Newline && Newline !in chunk[start..i]
  {
    ghost var k :| 0 <= k < |chunk[start..]| && chunk[start..][k] == Newline;
    ghost var bound := start + k;
    i := start;
    while chunk[i] != Newline
      invariant start <= i <= bound < |chunk| && chunk[bound] == Newline
      invariant Newline !in chunk[start..i]
      decreases bound - i
    {
      assert chunk[start..i + 1] == chunk[start..i] + [chunk[i]];
      i := i + 1;
    }
  }

  lemma MoreNewlines(chunk: seq<Byte>, start: nat)
    requires start <= |chunk| && Newlines(chunk[..start]) < Newlines(chunk)
    ensures Newline in chunk[start..]
  {
    assert chunk == chunk[..start] + chunk[start..];
    NewlinesConcat(chunk[..start], chunk[start..]);
    NoNewlines(chunk[start..]);
  }

  lemma NextNewline(chunk: seq<Byte>, start: nat, next: nat)
    requires start <= next < |chunk| && chunk[next] == Newline && Newline !in chunk[start..next]
    ensures Newlines(chunk[..next + 1]) == Newlines(chunk[..start]) + 1
  {
    assert chunk[..next + 1] == chunk[..start] + (chunk[start..next] + [Newline]);
    NewlinesConcat(chunk[..start], chunk[start..next] + [Newline]);
    NewlinesConcat(chunk[start..next], [Newline]);
    NoNewlines(chunk[start..next]);
  }

  /** The search for the last newline that is allowed. */
  method CutAfter(chunk: seq<Byte>, lines: int) returns (kept: seq<Byte>)
    requires 0 < lines <= Newlines(chunk)
    ensures kept == Cut(chunk, lines)
  {
    var end := -1;
    var found := 0;
    assert chunk[..0] == [];
    while found < lines
      invariant -1 <= end < |chunk| && 0 <= found <= lines && Newlines(chunk[..end + 1]) == found
      invariant found > 0 ==> end >= 0 && chunk[end] == Newline
    {
      hide Newlines;
      MoreNewlines(chunk, end + 1);
      var next := IndexOfNewline(chunk, end + 1);
      NextNewline(chunk, end + 1, next);
      end, found := next, found + 1;
    }
    CutAt(chunk, lines, end);
    kept := chunk[..end + 1];
  }

  // ----- chunks do not matter -----

  function Flatten(chunks: seq<seq<Byte>>): seq<Byte>
    decreases |chunks|
  {
    if chunks == [] then [] else Flatten(chunks[..|chunks| - 1]) + chunks[|chunks| - 1]
  }

  /** A whole capture: the file and the overflow flag are functions of the concatenation alone. */
  method Capture(chunks: seq<seq<Byte>>, maxBytes: int, maxLines: int) returns (file: seq<Byte>, overflow: bool)
    ensures file == Kept(Flatten(chunks), maxBytes, maxLines)
    ensures overflow <==> file != Flatten(chunks)
  {
    var stream := new BoundedStream(maxBytes, maxLines);
    var i := 0;
    while i < |chunks|
      invariant i <= |chunks| && stream.Valid() && fresh(stream)
      invariant stream.maxBytes == maxBytes && stream.maxLines == maxLines
      invariant stream.received == Flatten(chunks[..i])
    {
      assert chunks[..i + 1][..i] == chunks[..i];
      stream.Append(chunks[i]);
      i := i + 1;
    }
    assert chunks[..i] == chunks;
    return stream.file, stream.overflow;
  }

  /** Something is dropped exactly when the stream exceeds the byte cap or goes on after the last allowed newline. */
  lemma OverflowIff(s: seq<Byte>, maxBytes: int, maxLines: int)
    ensures Kept(s, maxBytes, maxLines) != s <==>
            s != [] && (|s| > maxBytes || Newlines(s[..|s| - 1]) >= maxLines)
  {
    KeptIsLongest(s, maxBytes, maxLines, |s|);
    assert s[..|s|] == s;
  }
}
