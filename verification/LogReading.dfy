/**
 Finding the newest complete record of a partition file by reading it from the end, in windows
 that grow until one holds a record.
 */
module LogReading {
  import opened Wrappers

  newtype byte = x: int | 0 <= x < 256

  const NEWLINE: byte := 10

  predicate Blank(b: byte) {
    b == 32 || 9 <= b <= 13
  }

  /** One byte more in front of a file: a newline opens a line, any other byte joins the first. */
  function Prepend(b: byte, pieces: seq<seq<byte>>): (r: seq<seq<byte>>)
    requires |pieces| >= 1
    ensures |r| >= 1
  {
    if b == NEWLINE then [[]] + pieces else [[b] + pieces[0]] + pieces[1..]
  }

  /** `data.split(b"\n")`: one more piece than there are newlines. */
  function Split(data: seq<byte>): (pieces: seq<seq<byte>>)
    ensures |pieces| >= 1
  {
    if data == [] then [[]] else Prepend(data[0], Split(data[1..]))
  }

  function StripLeft(s: seq<byte>): seq<byte> {
    if s != [] && Blank(s[0]) then StripLeft(s[1..]) else s
  }

  function StripRight(s: seq<byte>): seq<byte> {
    if s != [] && Blank(s[|s| - 1]) then StripRight(s[..|s| - 1]) else s
  }

  function Strip(s: seq<byte>): seq<byte> {
    StripRight(StripLeft(s))
  }

  // `json.loads`, as far as this module cares: some texts are events, the others are not.
  type Parser<T> = seq<byte> -> Option<T>

  function Read<T>(raw: seq<byte>, parse: Parser<T>): Option<T> {
    var text := Strip(raw);
    if text == [] then None else parse(text)
  }

  /** The full forward scan: after each line, the newest record so far. */
  function Scan<T>(lines: seq<seq<byte>>, parse: Parser<T>): Option<T> {
    if lines == [] then None
    else
      var n := |lines| - 1;
      if Read(lines[n], parse).Some? then Read(lines[n], parse) else Scan(lines[..n], parse)
  }

  /** The scan finds the last line that can be read, and nothing only when none can. */
  lemma {:induction false} ScanFindsLast<T>(lines: seq<seq<byte>>, parse: Parser<T>)
    ensures Scan(lines, parse).None? <==> forall i :: 0 <= i < |lines| ==> Read(lines[i], parse).None?
    ensures Scan(lines, parse).Some? ==>
              exists i :: 0 <= i < |lines| && Read(lines[i], parse) == Scan(lines, parse) &&
                          forall j :: i < j < |lines| ==> Read(lines[j], parse).None?
  {
    if lines != [] {
      var n := |lines| - 1;
      ScanFindsLast(lines[..n], parse);
      assert forall i :: 0 <= i < n ==> lines[i] == lines[..n][i];
    }
  }

  /** A record in the later lines hides the earlier ones; without one they decide. */
  lemma {:induction false} ScanConcat<T>(a: seq<seq<byte>>, b: seq<seq<byte>>, parse: Parser<T>)
    ensures Scan(a + b, parse) == if Scan(b, parse).Some? then Scan(b, parse) else Scan(a, parse)
  {
    if b == [] {
      assert a + b == a;
    } else {
      var n := |b| - 1;
      ScanConcat(a, b[..n], parse);
      assert (a + b)[..|a| + n] == a + b[..n];
    }
  }

  /** The last line of one file runs on into the first of the next. */
  function Joined(a: seq<seq<byte>>, b: seq<seq<byte>>): seq<seq<byte>>
    requires |a| >= 1 && |b| >= 1
  {
    a[..|a| - 1] + [a[|a| - 1] + b[0]] + b[1..]
  }

  lemma JoinedUnder(x: byte, a: seq<seq<byte>>, b: seq<seq<byte>>)
    requires |a| >= 1 && |b| >= 1
    ensures Prepend(x, Joined(a, b)) == Joined(Prepend(x, a), b)
  {
    if x != NEWLINE && |a| == 1 {
      assert [x] + (a[0] + b[0]) == [x] + a[0] + b[0];
    }
  }

  lemma JoinedToNothing(a: seq<seq<byte>>, b: seq<seq<byte>>)
    requires |b| >= 1
    ensures Joined(a + [[]], b) == a + b
  {
    assert (a + [[]])[..|a|] == a;
    assert [] + b[0] == b[0];
    assert [b[0]] + b[1..] == b;
  }

  lemma {:induction false} SplitConcat(a: seq<byte>, b: seq<byte>)
    ensures Split(a + b) == Joined(Split(a), Split(b))
  {
    if a == [] {
      assert a + b == b;
      JoinedToNothing([], Split(b));
    } else {
      SplitConcat(a[1..], b);
      assert (a + b)[1..] == a[1..] + b;
      JoinedUnder(a[0], Split(a[1..]), Split(b));
    }
  }

  /** The backward search of one window. */
  method ReadBackwards<T>(lines: seq<seq<byte>>, parse: Parser<T>) returns (found: Option<T>)
    ensures found == Scan(lines, parse)
  {
    var i := |lines|;
    assert lines[..i] == lines;
    while i > 0
      invariant 0 <= i <= |lines|
      invariant Scan(lines, parse) == Scan(lines[..i], parse)
    {
      i := i - 1;
      assert lines[..i + 1][..i] == lines[..i];
      var raw := Strip(lines[i]);
      if raw == [] { continue; }
      if parse(raw).Some? { return parse(raw); }
    }
    return None;
  }

  lemma WindowDecides<T>(file: seq<byte>, start: nat, parse: Parser<T>)
    requires start <= |file| && Scan(Split(file[start..])[1..], parse).Some?
    ensures Scan(Split(file), parse) == Scan(Split(file[start..])[1..], parse)
  {
    var front, back := Split(file[..start]), Split(file[start..]);
    assert file == file[..start] + file[start..];
    SplitConcat(file[..start], file[start..]);
    var older := front[..|front| - 1] + [front[|front| - 1] + back[0]];
    assert Split(file) == older + back[1..];
    ScanConcat(older, back[1..], parse);
  }

  /** `_last_parseable_event`: what a full forward scan would find, whatever the file holds and
      wherever the window's edge falls. A window of no bytes would never grow. */
  method LastParseable<T>(file: seq<byte>, chunk: nat, parse: Parser<T>) returns (found: Option<T>)
    requires chunk > 0 || file == []
    ensures found == Scan(Split(file), parse)
  {
    var size := |file|;
    if size == 0 { return None; }
    var window := chunk;
    while true
      invariant window > 0
      decreases size - window
    {
      var start := if size > window then size - window else 0;
      var lines := Split(file[start..]);
      if start > 0 {
        lines := lines[1..];
      }
      found := ReadBackwards(lines, parse);
      if found.Some? {
        if start > 0 { WindowDecides(file, start, parse); }
        return;
      }
      if start == 0 { return; }
      window := window * 4;
    }
  }

  // ----- what an unclean stop leaves

  ghost predicate WholeLines(file: seq<byte>) {
    file == [] || file[|file| - 1] == NEWLINE
  }

  lemma {:induction false} SplitOneLine(line: seq<byte>)
    requires NEWLINE !in line
    ensures Split(line) == [line]
    ensures Split(line + [NEWLINE]) == [line, []]
  {
    if line == [] {
      assert line + [NEWLINE] == [NEWLINE];
      assert [NEWLINE][1..] == [];
    } else {
      SplitOneLine(line[1..]);
      assert line == [line[0]] + line[1..];
      assert (line + [NEWLINE])[1..] == line[1..] + [NEWLINE];
    }
  }

  lemma {:induction false} SplitEndsEmpty(file: seq<byte>)
    requires WholeLines(file)
    ensures Split(file)[|Split(file)| - 1] == []
  {
    if file != [] { SplitEndsEmpty(file[1..]); }
  }

  /** What follows whole lines is split on its own. */
  lemma SplitWhole(file: seq<byte>, more: seq<byte>)
    requires WholeLines(file)
    ensures Split(file + more) == Split(file)[..|Split(file)| - 1] + Split(more)
  {
    SplitConcat(file, more);
    SplitEndsEmpty(file);
    JoinedToNothing(Split(file)[..|Split(file)| - 1], Split(more));
    assert Split(file) == Split(file)[..|Split(file)| - 1] + [[]];
  }

  lemma ScanOne<T>(line: seq<byte>, parse: Parser<T>)
    ensures Scan([line], parse) == Read(line, parse)
  {
    assert [line][..0] == [];
  }

  /** A record cut short by a crash is stepped over: the file reads as it did before it. */
  lemma TornTailIsSteppedOver<T>(file: seq<byte>, torn: seq<byte>, parse: Parser<T>)
    requires WholeLines(file) && NEWLINE !in torn && Read(torn, parse).None?
    ensures Scan(Split(file + torn), parse) == Scan(Split(file), parse)
  {
    var front := Split(file)[..|Split(file)| - 1];
    SplitWhole(file, torn);
    SplitEndsEmpty(file);
    SplitOneLine(torn);
    assert Split(file) == front + [[]];
    ScanConcat(front, [torn], parse);
    ScanConcat(front, [[]], parse);
    ScanOne(torn, parse);
    ScanOne([], parse);
  }

  /** A record appended behind a torn one shares its line: neither is found again. */
  lemma AppendAfterTornIsLost<T>(file: seq<byte>, torn: seq<byte>, line: seq<byte>, parse: Parser<T>)
    requires WholeLines(file) && NEWLINE !in torn && NEWLINE !in line && Read(torn + line, parse).None?
    ensures Scan(Split(file + torn + line + [NEWLINE]), parse) == Scan(Split(file), parse)
  {
    var front := Split(file)[..|Split(file)| - 1];
    SplitWhole(file, torn + line + [NEWLINE]);
    SplitOneLine(torn + line);
    SplitEndsEmpty(file);
    assert file + torn + line + [NEWLINE] == file + (torn + line + [NEWLINE]);
    assert Split(file) == front + [[]];
    ScanConcat(front, [torn + line, []], parse);
    ScanConcat(front, [[]], parse);
    assert [torn + line, []][..1] == [torn + line];
  }

  /** The record appended after whole lines is the one found next. */
  lemma AppendedLineIsFound<T>(file: seq<byte>, line: seq<byte>, parse: Parser<T>)
    requires WholeLines(file) && NEWLINE !in line && Read(line, parse).Some?
    ensures Scan(Split(file + line + [NEWLINE]), parse) == Read(line, parse)
  {
    var front := Split(file)[..|Split(file)| - 1];
    SplitWhole(file, line + [NEWLINE]);
    SplitOneLine(line);
    assert file + line + [NEWLINE] == file + (line + [NEWLINE]);
    ScanConcat(front, [line, []], parse);
    assert [line, []][..1] == [line];
  }

  // ----- lines and their blanks

  /** A newline is the byte 10: what stands before one is a line, whatever follows it. */
  lemma LineIsSplitOff(line: seq<byte>, rest: seq<byte>)
    requires 10 !in line
    ensures Split(line) == [line] && Split(line + [10] + rest) == [line] + Split(rest)
  {
    SplitOneLine(line);
    SplitConcat(line + [10], rest);
    assert [] + Split(rest)[0] == Split(rest)[0];
    assert [Split(rest)[0]] + Split(rest)[1..] == Split(rest);
  }

  predicate White(b: byte) {
    b in [9, 10, 11, 12, 13, 32]
  }

  ghost predicate AllWhite(s: seq<byte>) {
    forall i :: 0 <= i < |s| ==> White(s[i])
  }

  lemma {:induction false} LeftIsWhite(s: seq<byte>) returns (k: nat)
    ensures k <= |s| && StripLeft(s) == s[k..] && AllWhite(s[..k])
    ensures k < |s| ==> !White(s[k])
  {
    if s != [] && Blank(s[0]) {
      var rest := s[1..];
      k := LeftIsWhite(rest);
      assert s[..k + 1] == [s[0]] + rest[..k];
      assert s[k + 1..] == rest[k..];
      k := k + 1;
    } else {
      k := 0;
    }
  }

  lemma {:induction false} RightIsWhite(s: seq<byte>) returns (k: nat)
    ensures k <= |s| && StripRight(s) == s[..k] && AllWhite(s[k..])
    ensures k > 0 ==> !White(s[k - 1])
  {
    var n := |s|;
    if s != [] && Blank(s[n - 1]) {
      var front := s[..n - 1];
      k := RightIsWhite(front);
      assert front[..k] == s[..k];
      assert s[k..] == front[k..] + [s[n - 1]];
    } else {
      k := n;
      assert s[..n] == s && s[n..] == [];
    }
  }

  /** White space around a record is cut off, and nothing else is: what is left, if anything, is
      what is parsed. */
  lemma RecordIsTheMiddle<T>(s: seq<byte>, parse: Parser<T>) returns (left: nat, right: nat)
    ensures left <= right <= |s| && Read(s, parse) == if left == right then None else parse(s[left..right])
    ensures AllWhite(s[..left]) && AllWhite(s[right..])
    ensures left < right ==> !White(s[left]) && !White(s[right - 1])
  {
    left := LeftIsWhite(s);
    var rest := s[left..];
    var k := RightIsWhite(rest);
    right := left + k;
    assert s[right..] == rest[k..];
    assert s[left..right] == rest[..k];
    if k > 0 { assert rest[k - 1] == s[right - 1]; }
  }
}
