/**
 A reader for the files of `PdfWriter`. It knows nothing but the text: it starts from the end of
 the file, as readers do, finds the table and each object through it, and reads what the object
 says where it stands.
 */
module PdfReader {
  import opened Decimals
  import opened Wrappers
  import opened PdfWriter
  import opened PdfScan

  // ----- reading from the end

  function DigitsStart(file: string, place: nat): (r: nat)
    requires place <= |file|
    ensures r <= place
  {
    if place == 0 || !IsDigit(file[place - 1]) then place else DigitsStart(file, place - 1)
  }

  /** Section 7.5.5 of ISO 32000-1: the last line but one says where the table is. */
  function TablePlace(file: string): Option<int> {
    if |file| < 7 || file[|file| - 7..] != "\n%%EOF\n" then None
    else
      var end := |file| - 7;
      var start := DigitsStart(file, end);
      if start == end || start < 10 || !At(file, start - 10, "startxref\n") then None
      else Some(Parse(file[start..end]))
  }

  datatype Table = Table(size: int, first: nat)

  const TABLE: seq<string> := ["xref\n0 ", "\n"]
  const TRAILER: seq<string> := ["trailer\n<< /Size ", " /Root ", " 0 R >>\n"]

  /** Section 7.5.4 of ISO 32000-1: the table's one section starts at object 0 and says how many
      entries follow. */
  function ReadTable(file: string, place: int): Option<Table> {
    if place < 0 then None
    else
      match Scanned(file, place, TABLE, 1)
      case None => None
      case Some(scan) => if AllDigits(scan.words[0]) then Some(Table(Parse(scan.words[0]), scan.end)) else None
  }

  /** Entries are twenty bytes each, so one is found without reading those before it. */
  function Locate(file: string, table: Table, number: nat): Option<int> {
    var e := table.first + 20 * number;
    if !(0 < number < table.size) || e + 20 > |file| || !At(file, e + 10, " 00000 n \n") then None
    else Some(Parse(file[e..e + 10]))
  }

  /** The trailer after the last entry, read from its own place: the size and the root. */
  function ReadTrailer(file: string, place: nat): Option<(int, int)> {
    match Scanned(file, place, TRAILER, 2)
    case None => None
    case Some(scan) =>
      if AllDigits(scan.words[0]) && AllDigits(scan.words[1]) then Some((Parse(scan.words[0]), Parse(scan.words[1]))) else None
  }

  function Root(file: string, table: Table): Option<int> {
    if table.size < 0 then None
    else
      match ReadTrailer(file, table.first + 20 * table.size)
      case None => None
      case Some((size, root)) => if size == table.size then Some(root) else None
  }

  lemma {:induction false} DigitsStartIs(file: string, start: nat, place: nat)
    requires start <= place <= |file| && (start == 0 || !IsDigit(file[start - 1]))
    requires forall i :: start <= i < place ==> IsDigit(file[i])
    ensures DigitsStart(file, place) == start
    decreases place
  {
    if start < place { DigitsStartIs(file, start, place - 1); }
  }

  lemma NumberReadBackward(file: string, a: string, n: nat, b: string)
    requires file == a + Dec(n) + b && a != "" && !IsDigit(a[|a| - 1])
    ensures DigitsStart(file, |a| + |Dec(n)|) == |a| && Parse(file[|a|..|a| + |Dec(n)|]) == n
  {
    var end := |a| + |Dec(n)|;
    ParseDec(n);
    AtMiddle(file, a, Dec(n), b);
    assert file[|a|..end] == Dec(n);
    assert forall i :: |a| <= i < end ==> file[i] == Dec(n)[i - |a|];
    assert file[|a| - 1] == a[|a| - 1];
    DigitsStartIs(file, |a|, end);
  }

  lemma EndingApart(front: string, head: string, d: string, tail: string)
    ensures front + (head + d + tail) == (front + head) + d + tail
    ensures front + (head + d + tail) == front + head + (d + tail)
  {
  }

  lemma PlaceIsFound(file: string, front: string, xref: nat)
    requires file == front + Ending(xref)
    ensures TablePlace(file) == Some(xref)
  {
    var head, d, z := "startxref\n", Dec(xref), "\n%%EOF\n";
    EndingApart(front, head, d, z);
    NumberReadBackward(file, front + head, xref, z);
    AtMiddle(file, front, head, d + z);
  }

  lemma TableHeadText(size: nat)
    ensures TableHead(size) == Filled(TABLE, [Dec(size)], 1) && Separates(TABLE)
  {
    assert Filled(TABLE, [Dec(size)], 0) == TABLE[0];
  }

  lemma TableIsFound(file: string, front: string, size: nat, rest: string)
    requires file == front + TableHead(size) + rest
    ensures ReadTable(file, |front|) == Some(Table(size, |front| + |TableHead(size)|))
  {
    NumeralsAreWords(size);
    TableHeadText(size);
    AtMiddle(file, front, TableHead(size), rest);
    HeadIsRead(file, |front|, TABLE, [Dec(size)]);
  }

  // ----- the table leads to every object

  const LIMIT: nat := 10000000000

  lemma EntryWidth(offset: nat)
    ensures |Entry(offset)| == 20 <==> offset < LIMIT
  {
    PaddedWidth(offset);
  }

  lemma {:induction false} OffsetsRise(texts: seq<string>, i: nat, j: nat)
    requires i < j <= |texts|
    ensures Offset(texts, i) < Offset(texts, j)
    decreases j
  {
    if i < j - 1 { OffsetsRise(texts, i, j - 1); }
  }

  /** Section 7.5.4 of ISO 32000-1 wants every entry to be twenty bytes. They are exactly while the last object
      begins below ten to the tenth. */
  lemma EntriesAreTwenty(texts: seq<string>)
    ensures (forall i :: 0 <= i < |texts| ==> |Entry(Offset(texts, i))| == 20) <==>
            texts == [] || Offset(texts, |texts| - 1) < LIMIT
  {
    if texts != [] {
      var n := |texts| - 1;
      EntryWidth(Offset(texts, n));
      forall i | 0 <= i <= n && Offset(texts, n) < LIMIT ensures |Entry(Offset(texts, i))| == 20 {
        if i < n { OffsetsRise(texts, i, n); }
        EntryWidth(Offset(texts, i));
      }
    }
  }

  lemma AtInside(file: string, a: string, s: string, b: string, place: nat, t: string)
    requires file == a + s + b && At(s, place, t)
    ensures At(file, |a| + place, t)
  {
    assert file[|a|..|a| + |s|] == s;
    assert file[|a| + place..|a| + place + |t|] == s[place..place + |t|];
  }

  lemma {:induction false} EntriesAt(texts: seq<string>, n: nat, i: nat)
    requires i < n <= |texts| && Offset(texts, n - 1) < LIMIT
    ensures |Entries(texts, n)| == 20 * n
    ensures At(Entries(texts, n), 20 * i, Entry(Offset(texts, i)))
    decreases n
  {
    var front, last := Entries(texts, n - 1), Entry(Offset(texts, n - 1));
    EntryWidth(Offset(texts, n - 1));
    if n > 1 {
      OffsetsRise(texts, n - 2, n - 1);
      EntriesAt(texts, n - 1, if i < n - 1 then i else n - 2);
    }
  }

  lemma {:induction false} BodyAt(texts: seq<string>, n: nat, i: nat)
    requires i < n <= |texts|
    ensures At(Bodies(texts, n), Offset(texts, i), Body(i + 1, texts[i]))
    decreases n
  {
    var front, last := Bodies(texts, n - 1), Body(n, texts[n - 1]);
    if i < n - 1 { BodyAt(texts, n - 1, i); }
  }

  lemma EntryIsRead(file: string, e: nat, offset: nat)
    requires At(file, e, Entry(offset)) && offset < LIMIT
    ensures e + 20 <= |file| && At(file, e + 10, " 00000 n \n") && Parse(file[e..e + 10]) == offset
  {
    var entry := file[e..e + 20];
    PaddedWidth(offset);
    ParsePadded(offset);
    assert entry == Padded(offset) + " 00000 n \n";
    assert file[e..e + 10] == entry[..10] == Padded(offset);
    assert file[e + 10..e + 20] == entry[10..] == " 00000 n \n";
  }

  lemma Regrouped(b: string, h: string, f: string, e: string, t: string, z: string)
    ensures b + h + f + e + t + z == (b + h + f + e + t) + z
    ensures b + h + f + e + t + z == b + h + (f + e + t + z)
    ensures b + h + f + e + t + z == (b + h + f) + e + (t + z)
    ensures b + h + f + e + t + z == (b + h + f + e) + t + z
    ensures b + h + f + e + t + z == b + (h + f + e + t + z)
    ensures b + h + f + e + t + z == (b + h) + f + (e + t + z)
  {
  }

  lemma FileAroundTable(texts: seq<string>) returns (front: string, rest: string)
    ensures File(texts) == front + Ending(|Bodies(texts, |texts|)|)
    ensures File(texts) == Bodies(texts, |texts|) + TableHead(|texts| + 1) + rest
  {
    var n := |texts|;
    var b, h, e, t, z := Bodies(texts, n), TableHead(n + 1), Entries(texts, n), Trailer(n + 1, 1), Ending(Offset(texts, n));
    Regrouped(b, h, FREE, e, t, z);
    front, rest := b + h + FREE + e + t, FREE + e + t + z;
  }

  lemma FileAroundEntries(texts: seq<string>) returns (front: string, rest: string)
    ensures File(texts) == front + Entries(texts, |texts|) + rest
    ensures |front| == Offset(texts, |texts|) + |TableHead(|texts| + 1)| + 20
  {
    var n := |texts|;
    var b, h, e, t, z := Bodies(texts, n), TableHead(n + 1), Entries(texts, n), Trailer(n + 1, 1), Ending(Offset(texts, n));
    Regrouped(b, h, FREE, e, t, z);
    front, rest := b + h + FREE, t + z;
  }

  lemma FileAroundTrailer(texts: seq<string>) returns (front: string, rest: string)
    ensures File(texts) == front + Trailer(|texts| + 1, 1) + rest
    ensures |front| == Offset(texts, |texts|) + |TableHead(|texts| + 1)| + 20 + |Entries(texts, |texts|)|
  {
    var n := |texts|;
    var b, h, e, t, z := Bodies(texts, n), TableHead(n + 1), Entries(texts, n), Trailer(n + 1, 1), Ending(Offset(texts, n));
    Regrouped(b, h, FREE, e, t, z);
    front, rest := b + h + FREE + e, z;
  }

  lemma FileAfterBodies(texts: seq<string>) returns (rest: string)
    ensures File(texts) == Bodies(texts, |texts|) + rest
  {
    var n := |texts|;
    var b, h, e, t, z := Bodies(texts, n), TableHead(n + 1), Entries(texts, n), Trailer(n + 1, 1), Ending(Offset(texts, n));
    Regrouped(b, h, FREE, e, t, z);
    rest := h + FREE + e + t + z;
  }

  lemma EntryOfParts(file: string, a: string, e: string, c: string, table: Table, i: nat, offset: nat)
    requires file == a + e + c && At(e, 20 * i, Entry(offset)) && offset < LIMIT
    requires |a| == table.first + 20 && i + 1 < table.size
    ensures Locate(file, table, i + 1) == Some(offset)
  {
    var place := |a| + 20 * i;
    assert place == table.first + 20 * (i + 1);
    AtInside(file, a, e, c, 20 * i, Entry(offset));
    EntryIsRead(file, place, offset);
  }

  /** Where the table's entries begin, and how many it announces. */
  function TableOf(texts: seq<string>): Table {
    Table(|texts| + 1, |Bodies(texts, |texts|)| + |TableHead(|texts| + 1)|)
  }

  lemma PlaceOfFile(texts: seq<string>)
    ensures TablePlace(File(texts)) == Some(|Bodies(texts, |texts|)|)
  {
    var file, place := File(texts), |Bodies(texts, |texts|)|;
    var front, _ := FileAroundTable(texts);
    PlaceIsFound(file, front, place);
  }

  lemma TableOfFile(texts: seq<string>)
    ensures ReadTable(File(texts), |Bodies(texts, |texts|)|) == Some(TableOf(texts))
  {
    var file, b, size := File(texts), Bodies(texts, |texts|), |texts| + 1;
    var _, rest := FileAroundTable(texts);
    TableIsFound(file, b, size, rest);
  }

  /** The reader is told where each object begins. */
  lemma EveryObjectIsLocated(texts: seq<string>, i: nat)
    requires i < |texts| && Offset(texts, |texts| - 1) < LIMIT
    ensures Locate(File(texts), TableOf(texts), i + 1) == Some(Offset(texts, i))
  {
    var file, entries, offset := File(texts), Entries(texts, |texts|), Offset(texts, i);
    var front, rest := FileAroundEntries(texts);
    if i < |texts| - 1 { OffsetsRise(texts, i, |texts| - 1); }
    EntriesAt(texts, |texts|, i);
    EntryOfParts(file, front, entries, rest, TableOf(texts), i, offset);
  }

  /** And it begins there: its number, its text and its end stand at that byte. */
  lemma EveryObjectIsThere(texts: seq<string>, i: nat)
    requires i < |texts|
    ensures At(File(texts), Offset(texts, i), Body(i + 1, texts[i]))
  {
    var file, bodies, body := File(texts), Bodies(texts, |texts|), Body(i + 1, texts[i]);
    var rest := FileAfterBodies(texts);
    BodyAt(texts, |texts|, i);
  }

  lemma TrailerText(size: nat, root: nat)
    ensures Trailer(size, root) == Filled(TRAILER, [Dec(size), Dec(root)], 2) && Separates(TRAILER)
  {
    var words := [Dec(size), Dec(root)];
    assert Filled(TRAILER, words, 0) == TRAILER[0];
    assert Filled(TRAILER, words, 1) == TRAILER[0] + Dec(size) + TRAILER[1];
  }

  lemma TrailerIsRead(file: string, a: string, size: nat, root: nat, rest: string)
    requires file == a + Trailer(size, root) + rest
    ensures ReadTrailer(file, |a|) == Some((size as int, root as int))
  {
    NumeralsAreWords(size);
    NumeralsAreWords(root);
    TrailerText(size, root);
    AtMiddle(file, a, Trailer(size, root), rest);
    HeadIsRead(file, |a|, TRAILER, [Dec(size), Dec(root)]);
  }

  lemma RootOfParts(file: string, a: string, rest: string, table: Table, size: nat, root: nat)
    requires file == a + Trailer(size, root) + rest
    requires table.size == size && |a| == table.first + 20 * size
    ensures Root(file, table) == Some(root)
  {
    TrailerIsRead(file, a, size, root, rest);
  }

  lemma RootIsFound(texts: seq<string>)
    requires texts != [] && Offset(texts, |texts| - 1) < LIMIT
    ensures Root(File(texts), TableOf(texts)) == Some(1)
  {
    var file, size := File(texts), |texts| + 1;
    var front, rest := FileAroundTrailer(texts);
    EntriesAt(texts, |texts|, 0);
    RootOfParts(file, front, rest, TableOf(texts), size, 1);
  }

  lemma FileAroundFree(texts: seq<string>) returns (front: string, rest: string)
    ensures File(texts) == front + FREE + rest
    ensures |front| == TableOf(texts).first
  {
    var n := |texts|;
    var b, h, e, t, z := Bodies(texts, n), TableHead(n + 1), Entries(texts, n), Trailer(n + 1, 1), Ending(Offset(texts, n));
    Regrouped(b, h, FREE, e, t, z);
    front, rest := b + h, e + t + z;
  }

  lemma {:induction false} BeginsWithHeader(texts: seq<string>, n: nat)
    requires n <= |texts|
    ensures At(Bodies(texts, n), 0, HEADER)
  {
    if n > 0 { BeginsWithHeader(texts, n - 1); }
  }

  lemma HeaderText(file: string)
    requires At(file, 0, HEADER)
    ensures At(file, 0, "%PDF-1.4\n%") && file[14] == '\n' && forall i :: 10 <= i < 14 ==> file[i] as int > 127
  {
    var version, bytes := "%PDF-1.4\n%", "\U{e2}\U{e3}\U{cf}\U{d3}\n";
    assert HEADER == version + bytes;
    AtPrefix(file, 0, version, bytes);
    assert file[10] == bytes[0] && file[11] == bytes[1] && file[12] == bytes[2] && file[13] == bytes[3];
    assert file[14] == bytes[4];
  }

  /** Sections 7.5.2 and 7.5.4 of ISO 32000-1: the version comes first, then a comment of bytes
      above 127; the table's first entry is that of object 0, the head of the free list. */
  lemma HeaderAndFreeEntry(texts: seq<string>)
    ensures At(File(texts), 0, "%PDF-1.4\n%") && File(texts)[14] == '\n'
    ensures forall i :: 10 <= i < 14 ==> File(texts)[i] as int > 127
    ensures At(File(texts), TableOf(texts).first, "0000000000 65535 f \n")
  {
    var rest := FileAfterBodies(texts);
    BeginsWithHeader(texts, |texts|);
    AtInside(File(texts), "", Bodies(texts, |texts|), rest, 0, HEADER);
    HeaderText(File(texts));
    var a, b := FileAroundFree(texts);
    AtMiddle(File(texts), a, FREE, b);
  }
}
