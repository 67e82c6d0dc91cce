/**
 What the objects of a file say, read from their text where they stand, and the frames a reader
 gets from it.
 */
module PdfRoundTrip {
  import opened Decimals
  import opened Wrappers
  import opened PdfWriter
  import opened PdfScan
  import opened PdfReader

  // ----- one object at a time

  const CATALOG: seq<string> := ["<< /Type /Catalog /Pages ", " 0 R >>"]
  const COUNT: seq<string> := [" /Count ", " >>"]
  const IMAGE: seq<string> :=
    ["<< /Type /XObject /Subtype /Image /Width ", " /Height ", " /ColorSpace /", " /BitsPerComponent ", " /Filter /",
     " /Length ", " >>\nstream\n"]
  const CONTENT: seq<string> := ["<< /Length ", " >>\nstream\n"]
  const DRAWING: seq<string> := ["q ", " 0 0 ", " 0 0 cm /Im0 Do Q"]
  const PAGE: seq<string> :=
    ["<< /Type /Page /Parent ", " 0 R /MediaBox [0 0 ", " ", "] /Resources << /XObject << /Im0 ", " 0 R >> >> /Contents ",
     " 0 R >>"]
  const OBJECT_END: string := "\nendobj\n"
  const STREAM_END: string := "\nendstream\nendobj\n"

  /** The page tree that the catalog names. */
  function ReadCatalog(file: string, place: nat): Option<int> {
    match Scanned(file, place, CATALOG, 1)
    case None => None
    case Some(scan) => if At(file, scan.end, OBJECT_END) then Value(scan.words[0]) else None
  }

  datatype Leaf = Leaf(parent: int, boxWidth: string, boxHeight: string, image: int, contents: int)

  function LeafOf(words: seq<string>): Option<Leaf>
    requires |words| == 5
  {
    if AllDigits(words[0]) && AllDigits(words[3]) && AllDigits(words[4])
    then Some(Leaf(Parse(words[0]), words[1], words[2], Parse(words[3]), Parse(words[4]))) else None
  }

  function ReadPage(file: string, place: nat): Option<Leaf> {
    match Scanned(file, place, PAGE, 5)
    case None => None
    case Some(scan) => if At(file, scan.end, OBJECT_END) then LeafOf(scan.words) else None
  }

  datatype Stream = Stream(words: seq<string>, data: string)

  /** As many bytes as a number says, up to `tail`. */
  function ReadData(file: string, place: nat, length: string, tail: string): Option<string> {
    if !AllDigits(length) then None
    else
      var end := place + Parse(length);
      if place <= end <= |file| && At(file, end, tail) then Some(file[place..end]) else None
  }

  /** A dictionary whose last word is the length of the data that follows it. */
  function ReadStream(file: string, place: nat, fixed: seq<string>, n: nat, tail: string): Option<Stream>
    requires 0 < n < |fixed|
  {
    match Scanned(file, place, fixed, n)
    case None => None
    case Some(scan) =>
      match ReadData(file, scan.end, scan.words[n - 1], tail)
      case None => None
      case Some(data) => Some(Stream(scan.words, data))
  }

  function ReadDrawing(drawing: string): Option<(string, string)> {
    match Scanned(drawing, 0, DRAWING, 2)
    case None => None
    case Some(scan) => if scan.end == |drawing| then Some((scan.words[0], scan.words[1])) else None
  }

  function ReadContent(file: string, place: nat): Option<(string, string)> {
    match ReadStream(file, place, CONTENT, 1, STREAM_END)
    case None => None
    case Some(stream) => ReadDrawing(stream.data)
  }

  datatype Picture = Picture(width: int, height: int, colorspace: string, bits: int, filter: string, data: string)

  function PictureOf(words: seq<string>, data: string): Option<Picture>
    requires |words| == 6
  {
    if AllDigits(words[0]) && AllDigits(words[1]) && AllDigits(words[3])
    then Some(Picture(Parse(words[0]), Parse(words[1]), words[2], Parse(words[3]), words[4], data)) else None
  }

  function ReadImage(file: string, place: nat): Option<Picture> {
    match ReadStream(file, place, IMAGE, 6, STREAM_END)
    case None => None
    case Some(stream) => if |stream.words| == 6 then PictureOf(stream.words, stream.data) else None
  }

  lemma CatalogText(tree: nat)
    ensures Render(Catalog(tree)) == Filled(CATALOG, [Dec(tree)], 1)
  {
    assert Filled(CATALOG, [Dec(tree)], 0) == CATALOG[0];
  }

  lemma CatalogIsRead(file: string, place: nat, tree: nat)
    requires At(file, place, Render(Catalog(tree)) + OBJECT_END)
    ensures ReadCatalog(file, place) == Some(tree)
  {
    var words := [Dec(tree)];
    NumeralsAreWords(tree);
    CatalogText(tree);
    AtPrefix(file, place, Filled(CATALOG, words, 1), OBJECT_END);
    FixedTextsSeparate();
    ScanUndoesFilling(file, place, CATALOG, words, 1);
    assert words[..1] == words;
  }

  function PageWords(o: Object): seq<string>
    requires o.Page?
  {
    [Dec(o.parent), o.boxWidth, o.boxHeight, Dec(o.image), Dec(o.contents)]
  }

  lemma PageText(o: Object)
    requires o.Page?
    ensures Render(o) == Filled(PAGE, PageWords(o), 5)
  {
    var words := PageWords(o);
    assert Filled(PAGE, words, 0) == PAGE[0];
    assert Filled(PAGE, words, 1) == PAGE[0] + Dec(o.parent) + PAGE[1];
    assert Filled(PAGE, words, 2) == Filled(PAGE, words, 1) + o.boxWidth + PAGE[2];
    assert Filled(PAGE, words, 3) == Filled(PAGE, words, 2) + o.boxHeight + PAGE[3];
    assert Filled(PAGE, words, 4) == Filled(PAGE, words, 3) + Dec(o.image) + PAGE[4];
  }

  lemma PageWordsAreWords(o: Object)
    requires o.Page?
    ensures AllWords(PageWords(o)) && LeafOf(PageWords(o)) == Some(Leaf(o.parent, o.boxWidth, o.boxHeight, o.image, o.contents))
  {
    NumeralsAreWords(o.parent);
    NumeralsAreWords(o.image);
    NumeralsAreWords(o.contents);
  }

  lemma PageGiven(file: string, place: nat, o: Object, end: nat)
    requires o.Page? && Scanned(file, place, PAGE, 5) == Some(Scan(PageWords(o), end)) && At(file, end, OBJECT_END)
    ensures ReadPage(file, place) == Some(Leaf(o.parent, o.boxWidth, o.boxHeight, o.image, o.contents))
  {
    PageWordsAreWords(o);
  }

  lemma PageIsRead(file: string, place: nat, o: Object)
    requires o.Page? && At(file, place, Render(o) + OBJECT_END)
    ensures ReadPage(file, place) == Some(Leaf(o.parent, o.boxWidth, o.boxHeight, o.image, o.contents))
  {
    PageWordsAreWords(o);
    PageText(o);
    AtPrefix(file, place, Render(o), OBJECT_END);
    FixedTextsSeparate();
    HeadIsRead(file, place, PAGE, PageWords(o));
    PageGiven(file, place, o, place + |Render(o)|);
  }

  lemma DrawingText(widthPt: Word, heightPt: Word)
    ensures Drawing(widthPt, heightPt) == Filled(DRAWING, [widthPt, heightPt], 2)
  {
    var words := [widthPt, heightPt];
    assert Filled(DRAWING, words, 0) == DRAWING[0];
    assert Filled(DRAWING, words, 1) == DRAWING[0] + widthPt + DRAWING[1];
  }

  lemma ContentText(o: Object)
    requires o.Content?
    ensures var drawing := Drawing(o.widthPt, o.heightPt);
            Render(o) + OBJECT_END == Filled(CONTENT, [Dec(|drawing|)], 1) + drawing + STREAM_END
  {
    var drawing := Drawing(o.widthPt, o.heightPt);
    var size := [Dec(|drawing|)];
    assert Filled(CONTENT, size, 0) == CONTENT[0];
    assert Filled(CONTENT, size, 1) == CONTENT[0] + Dec(|drawing|) + CONTENT[1];
    EndsTogether(Filled(CONTENT, size, 1), drawing);
  }

  lemma DrawingIsRead(widthPt: Word, heightPt: Word)
    ensures ReadDrawing(Drawing(widthPt, heightPt)) == Some((widthPt, heightPt))
  {
    var words := [widthPt, heightPt];
    DrawingText(widthPt, heightPt);
    WholeText(Drawing(widthPt, heightPt));
    ScanUndoesFilling(Drawing(widthPt, heightPt), 0, DRAWING, words, 2);
    assert words[..2] == words;
  }

  lemma DataIsRead(file: string, place: nat, length: string, data: string, tail: string)
    requires AllDigits(length) && Parse(length) == |data|
    requires At(file, place, data) && At(file, place + |data|, tail)
    ensures ReadData(file, place, length, tail) == Some(data)
  {
    TextAt(file, place, data);
  }

  lemma StreamFromParts(file: string, place: nat, fixed: seq<string>, words: seq<string>, end: nat, data: string, tail: string)
    requires 0 < |words| < |fixed| && AllDigits(words[|words| - 1]) && Parse(words[|words| - 1]) == |data|
    requires Scanned(file, place, fixed, |words|) == Some(Scan(words, end))
    requires At(file, end, data) && At(file, end + |data|, tail)
    ensures ReadStream(file, place, fixed, |words|, tail) == Some(Stream(words, data))
  {
    DataIsRead(file, end, words[|words| - 1], data, tail);
  }

  lemma StreamApart(file: string, place: nat, head: string, data: string, tail: string)
    requires At(file, place, head + data + tail)
    ensures At(file, place, head) && At(file, place + |head|, data) && At(file, place + |head| + |data|, tail)
  {
    AtPrefix(file, place, head + data, tail);
    AtPrefix(file, place, head, data);
  }

  lemma StreamInPieces(file: string, place: nat, fixed: seq<string>, words: seq<string>, end: nat, data: string, tail: string)
    requires 0 < |words| < |fixed| && Separates(fixed) && AllWords(words)
    requires AllDigits(words[|words| - 1]) && Parse(words[|words| - 1]) == |data|
    requires At(file, place, Filled(fixed, words, |words|)) && end == place + |Filled(fixed, words, |words|)|
    requires At(file, end, data) && At(file, end + |data|, tail)
    ensures ReadStream(file, place, fixed, |words|, tail) == Some(Stream(words, data))
  {
    HeadIsRead(file, place, fixed, words);
    StreamFromParts(file, place, fixed, words, end, data, tail);
  }

  lemma StreamIsRead(file: string, place: nat, fixed: seq<string>, words: seq<string>, data: string, tail: string)
    requires 0 < |words| < |fixed| && Separates(fixed) && AllWords(words)
    requires AllDigits(words[|words| - 1]) && Parse(words[|words| - 1]) == |data|
    requires At(file, place, Filled(fixed, words, |words|) + data + tail)
    ensures ReadStream(file, place, fixed, |words|, tail) == Some(Stream(words, data))
  {
    var head := Filled(fixed, words, |words|);
    StreamApart(file, place, head, data, tail);
    StreamInPieces(file, place, fixed, words, place + |head|, data, tail);
  }

  lemma ContentIsRead(file: string, place: nat, o: Object)
    requires o.Content? && At(file, place, Render(o) + OBJECT_END)
    ensures ReadContent(file, place) == Some((o.widthPt, o.heightPt))
  {
    var drawing := Drawing(o.widthPt, o.heightPt);
    ContentText(o);
    DrawingIsRead(o.widthPt, o.heightPt);
    NumeralsAreWords(|drawing|);
    FixedTextsSeparate();
    StreamIsRead(file, place, CONTENT, [Dec(|drawing|)], drawing, STREAM_END);
  }

  lemma FixedTextsSeparate()
    ensures Separates(CATALOG) && Separates(COUNT) && Separates(IMAGE) && Separates(CONTENT) && Separates(DRAWING) && Separates(PAGE)
  {
  }

  lemma WholeText(s: string)
    ensures At(s, 0, s)
  {
  }

  function ImageWords(o: Object): seq<string>
    requires o.Image?
  {
    [Dec(o.width), Dec(o.height), o.colorspace, Dec(o.bits), o.filter, Dec(|o.data|)]
  }

  lemma ImageText(o: Object)
    requires o.Image?
    ensures Render(o) + OBJECT_END == Filled(IMAGE, ImageWords(o), 6) + o.data + STREAM_END
  {
    var words := ImageWords(o);
    assert Filled(IMAGE, words, 0) == IMAGE[0];
    assert Filled(IMAGE, words, 1) == IMAGE[0] + Dec(o.width) + IMAGE[1];
    assert Filled(IMAGE, words, 2) == Filled(IMAGE, words, 1) + Dec(o.height) + IMAGE[2];
    assert Filled(IMAGE, words, 3) == Filled(IMAGE, words, 2) + o.colorspace + IMAGE[3];
    assert Filled(IMAGE, words, 4) == Filled(IMAGE, words, 3) + Dec(o.bits) + IMAGE[4];
    assert Filled(IMAGE, words, 5) == Filled(IMAGE, words, 4) + o.filter + IMAGE[5];
    EndsTogether(Filled(IMAGE, words, 6), o.data);
  }

  lemma EndsTogether(head: string, data: string)
    ensures head + data + "\nendstream" + OBJECT_END == head + data + STREAM_END
  {
    assert "\nendstream" + OBJECT_END == STREAM_END;
  }

  lemma ImageWordsAreWords(o: Object)
    requires o.Image?
    ensures AllWords(ImageWords(o)) && AllDigits(ImageWords(o)[5]) && Parse(ImageWords(o)[5]) == |o.data|
    ensures PictureOf(ImageWords(o), o.data) == Some(Picture(o.width, o.height, o.colorspace, o.bits, o.filter, o.data))
  {
    NumeralsAreWords(o.width);
    NumeralsAreWords(o.height);
    NumeralsAreWords(o.bits);
    NumeralsAreWords(|o.data|);
  }

  lemma ImageIsRead(file: string, place: nat, o: Object)
    requires o.Image? && At(file, place, Render(o) + OBJECT_END)
    ensures ReadImage(file, place) == Some(Picture(o.width, o.height, o.colorspace, o.bits, o.filter, o.data))
  {
    ImageText(o);
    ImageWordsAreWords(o);
    FixedTextsSeparate();
    StreamIsRead(file, place, IMAGE, ImageWords(o), o.data, STREAM_END);
  }

  // ----- the page tree's list

  const KIDS: string := "<< /Type /Pages /Kids ["

  // A reference read, and where the text after it begins.
  datatype Step = Step(kid: int, next: nat, last: bool)

  /** A reference, and the space or closing bracket after it. */
  function ReadKid(file: string, place: nat): Option<Step> {
    if place > |file| then None
    else
      var end := WordEnd(file, place);
      if end == place || !AllDigits(file[place..end]) then None
      else if At(file, end, " 0 R ") then Some(Step(Parse(file[place..end]), end + 5, false))
      else if At(file, end, " 0 R]") then Some(Step(Parse(file[place..end]), end + 5, true))
      else None
  }

  function KidReader(file: string): nat -> Option<Step> {
    (place: nat) => ReadKid(file, place)
  }

  datatype Listed = Listed(kids: seq<int>, end: nat)

  function ReadKids(read: nat -> Option<Step>, place: nat, bound: nat): Option<Listed>
    decreases bound - place
  {
    match read(place)
    case None => None
    case Some(step) =>
      if step.last then Some(Listed([step.kid], step.next))
      else if !(place < step.next <= bound) then None
      else
        match ReadKids(read, step.next, bound)
        case None => None
        case Some(rest) => Some(Listed([step.kid] + rest.kids, rest.end))
  }

  function ReadList(file: string, place: nat): Option<Listed> {
    if At(file, place, "]") then Some(Listed([], place + 1)) else ReadKids(KidReader(file), place, |file|)
  }

  function ReadPages(file: string, place: nat): Option<seq<int>> {
    if !At(file, place, KIDS) then None
    else
      match ReadList(file, place + |KIDS|)
      case None => None
      case Some(list) =>
        if ReadCount(file, list.end) == Some(|list.kids|) then Some(list.kids) else None
  }

  function ReadCount(file: string, place: nat): Option<int> {
    match Scanned(file, place, COUNT, 1)
    case None => None
    case Some(scan) => if At(file, scan.end, OBJECT_END) then Value(scan.words[0]) else None
  }

  /** The list from the `k`-th reference on, with its bracket. */
  function Tail(kids: seq<nat>, k: nat): string
    requires k < |kids|
    decreases |kids| - k
  {
    if k == |kids| - 1 then Dec(kids[k]) + " 0 R]" else Dec(kids[k]) + " 0 R " + Tail(kids, k + 1)
  }

  function Before(kids: seq<nat>, k: nat): string
    requires k < |kids|
  {
    if k == 0 then "" else References(kids[..k]) + " "
  }

  lemma FourTogether(a: string, b: string, c: string, d: string)
    ensures a + (b + c + d) == (a + (b + c)) + d
  {
  }

  lemma OneOn(before: string, word: string, rest: string)
    ensures before + (word + " 0 R ") + rest == (before + (word + " 0 R")) + " " + rest
    ensures before + (word + " 0 R]") == (before + (word + " 0 R")) + "]"
  {
    assert word + " 0 R " == (word + " 0 R") + " ";
    assert word + " 0 R]" == (word + " 0 R") + "]";
  }

  lemma {:induction false} ListIsTail(kids: seq<nat>, k: nat)
    requires k < |kids|
    ensures Before(kids, k) + Tail(kids, k) == References(kids) + "]"
    decreases |kids| - k
  {
    var before, word := Before(kids, k), Dec(kids[k]);
    BeforeNext(kids, k);
    if k == |kids| - 1 {
      assert kids[..k + 1] == kids;
      OneOn(before, word, "");
    } else {
      ListIsTail(kids, k + 1);
      OneOn(before, word, Tail(kids, k + 1));
      FourTogether(before, word, " 0 R ", Tail(kids, k + 1));
    }
  }

  lemma BeforeNext(kids: seq<nat>, k: nat)
    requires k < |kids|
    ensures References(kids[..k + 1]) == Before(kids, k) + Reference(kids[k])
  {
    var front := kids[..k + 1];
    assert front[..k] == kids[..k] && front[k] == kids[k];
  }

  lemma KidIsRead(file: string, place: nat, word: string, next: string)
    requires At(file, place, word) && At(file, place + |word|, next) && IsWord(word) && AllDigits(word)
    requires next == " 0 R " || next == " 0 R]"
    ensures ReadKid(file, place) == Some(Step(Parse(word), place + |word| + 5, next == " 0 R]"))
  {
    WordIsRead(file, place, word, next);
    OneOrTheOther(file, place + |word|);
  }

  lemma OneOrTheOther(file: string, place: nat)
    ensures !(At(file, place, " 0 R ") && At(file, place, " 0 R]"))
  {
    assert " 0 R "[4] != " 0 R]"[4];
  }

  /** The references from the `k`-th on stand in the file, piece by piece. */
  predicate TailAt(file: string, place: nat, kids: seq<nat>, k: nat)
    requires k < |kids|
    decreases |kids| - k
  {
    var end := place + |Dec(kids[k])|;
    && At(file, place, Dec(kids[k]))
    && if k == |kids| - 1 then At(file, end, " 0 R]") else At(file, end, " 0 R ") && TailAt(file, end + 5, kids, k + 1)
  }

  lemma {:induction false} TailInPieces(file: string, place: nat, kids: seq<nat>, k: nat)
    requires k < |kids| && At(file, place, Tail(kids, k))
    ensures TailAt(file, place, kids, k)
    decreases |kids| - k
  {
    var word := Dec(kids[k]);
    if k == |kids| - 1 {
      AtPrefix(file, place, word, " 0 R]");
    } else {
      AtPrefix(file, place, word + " 0 R ", Tail(kids, k + 1));
      AtPrefix(file, place, word, " 0 R ");
      TailInPieces(file, place + |word| + 5, kids, k + 1);
    }
  }

  /** The references from the `k`-th on are read one after the other. */
  predicate ListAt(read: nat -> Option<Step>, bound: nat, place: nat, kids: seq<nat>, k: nat)
    requires k < |kids|
    decreases |kids| - k
  {
    var next := place + |Dec(kids[k])| + 5;
    if k == |kids| - 1 then read(place) == Some(Step(kids[k], next, true))
    else next <= bound && read(place) == Some(Step(kids[k], next, false)) && ListAt(read, bound, next, kids, k + 1)
  }

  function ListEnd(place: nat, kids: seq<nat>, k: nat): nat
    requires k < |kids|
    decreases |kids| - k
  {
    var next := place + |Dec(kids[k])| + 5;
    if k == |kids| - 1 then next else ListEnd(next, kids, k + 1)
  }

  lemma {:induction false} ListEndIs(place: nat, kids: seq<nat>, k: nat)
    requires k < |kids|
    ensures ListEnd(place, kids, k) == place + |Tail(kids, k)|
    decreases |kids| - k
  {
    if k < |kids| - 1 { ListEndIs(place + |Dec(kids[k])| + 5, kids, k + 1); }
  }

  lemma NumeralIsRead(file: string, place: nat, kid: nat, last: bool)
    requires At(file, place, Dec(kid)) && At(file, place + |Dec(kid)|, if last then " 0 R]" else " 0 R ")
    ensures KidReader(file)(place) == Some(Step(kid, place + |Dec(kid)| + 5, last)) && place + |Dec(kid)| + 5 <= |file|
  {
    NumeralsAreWords(kid);
    KidIsRead(file, place, Dec(kid), if last then " 0 R]" else " 0 R ");
  }

  lemma {:induction false} TailIsList(file: string, place: nat, kids: seq<nat>, k: nat)
    requires k < |kids| && TailAt(file, place, kids, k)
    ensures ListAt(KidReader(file), |file|, place, kids, k)
    decreases |kids| - k
  {
    NumeralIsRead(file, place, kids[k], k == |kids| - 1);
    if k < |kids| - 1 { TailIsList(file, place + |Dec(kids[k])| + 5, kids, k + 1); }
  }

  lemma {:induction false} ListIsCollected(read: nat -> Option<Step>, bound: nat, place: nat, kids: seq<nat>, k: nat)
    requires k < |kids| && ListAt(read, bound, place, kids, k)
    ensures ReadKids(read, place, bound) == Some(Listed(kids[k..], ListEnd(place, kids, k)))
    decreases |kids| - k
  {
    if k == |kids| - 1 {
      assert kids[k..] == [kids[k]];
    } else {
      ListIsCollected(read, bound, place + |Dec(kids[k])| + 5, kids, k + 1);
      assert kids[k..] == [kids[k]] + kids[k + 1..];
    }
  }

  lemma KidsAreRead(file: string, place: nat, kids: seq<nat>)
    requires kids != [] && TailAt(file, place, kids, 0)
    ensures ReadKids(KidReader(file), place, |file|) == Some(Listed(kids, ListEnd(place, kids, 0)))
  {
    TailIsList(file, place, kids, 0);
    ListIsCollected(KidReader(file), |file|, place, kids, 0);
    assert kids[0..] == kids;
  }

  lemma BracketAt(file: string, place: nat)
    requires place < |file|
    ensures At(file, place, "]") <==> file[place] == ']'
  {
    assert "]"[0] == ']';
  }

  lemma WordIsNoBracket(file: string, place: nat, word: string)
    requires At(file, place, word) && IsWord(word)
    ensures !At(file, place, "]")
  {
    assert file[place + 0] == word[0];
    BracketAt(file, place);
  }

  lemma ListInPieces(file: string, place: nat, kids: seq<nat>)
    requires kids != [] && At(file, place, References(kids) + "]")
    ensures TailAt(file, place, kids, 0) && ListEnd(place, kids, 0) == place + |References(kids)| + 1
  {
    ListIsTail(kids, 0);
    assert Before(kids, 0) + Tail(kids, 0) == Tail(kids, 0);
    TailInPieces(file, place, kids, 0);
    ListEndIs(place, kids, 0);
  }

  lemma ListGiven(file: string, place: nat, kids: seq<nat>)
    requires kids != [] && TailAt(file, place, kids, 0)
    ensures ReadList(file, place) == Some(Listed(kids, ListEnd(place, kids, 0)))
  {
    FirstIsNoBracket(file, place, kids);
    KidsAreRead(file, place, kids);
  }

  lemma ListIsRead(file: string, place: nat, kids: seq<nat>)
    requires At(file, place, References(kids) + "]")
    ensures ReadList(file, place) == Some(Listed(kids, place + |References(kids)| + 1))
  {
    if kids == [] {
      assert References(kids) + "]" == "]";
    } else {
      ListInPieces(file, place, kids);
      ListGiven(file, place, kids);
    }
  }

  lemma FirstIsNoBracket(file: string, place: nat, kids: seq<nat>)
    requires kids != [] && TailAt(file, place, kids, 0)
    ensures !At(file, place, "]")
  {
    NumeralsAreWords(kids[0]);
    WordIsNoBracket(file, place, Dec(kids[0]));
  }

  lemma PagesText(kids: seq<nat>, count: nat)
    ensures Render(Pages(kids, count)) + OBJECT_END ==
            KIDS + (References(kids) + "]") + (Filled(COUNT, [Dec(count)], 1) + OBJECT_END)
  {
    var words := [Dec(count)];
    assert Filled(COUNT, words, 0) == COUNT[0];
    assert Filled(COUNT, words, 1) == COUNT[0] + Dec(count) + COUNT[1];
    assert "]" + " /Count " == "] /Count ";
    PiecesTogether(KIDS, References(kids), "]", COUNT[0], Dec(count), COUNT[1], OBJECT_END);
  }

  lemma PiecesTogether(a: string, b: string, c: string, d: string, e: string, f: string, g: string)
    ensures a + b + (c + d) + e + f + g == a + (b + c) + (d + e + f + g)
  {
  }

  lemma CountIsRead(file: string, place: nat, count: nat)
    requires At(file, place, Filled(COUNT, [Dec(count)], 1) + OBJECT_END)
    ensures ReadCount(file, place) == Some(count)
  {
    var words := [Dec(count)];
    AtPrefix(file, place, Filled(COUNT, words, 1), OBJECT_END);
    NumeralsAreWords(count);
    FixedTextsSeparate();
    ScanUndoesFilling(file, place, COUNT, words, 1);
    assert words[..1] == words;
  }

  lemma PagesApart(file: string, place: nat, kids: seq<nat>)
    requires At(file, place, Render(Pages(kids, |kids|)) + OBJECT_END)
    ensures At(file, place, KIDS) && At(file, place + |KIDS|, References(kids) + "]")
    ensures At(file, place + |KIDS| + |References(kids)| + 1, Filled(COUNT, [Dec(|kids|)], 1) + OBJECT_END)
  {
    var list, count := References(kids) + "]", Filled(COUNT, [Dec(|kids|)], 1) + OBJECT_END;
    PagesText(kids, |kids|);
    AtPrefix(file, place, KIDS + list, count);
    AtPrefix(file, place, KIDS, list);
  }

  lemma PagesGiven(file: string, place: nat, base: nat, kids: seq<int>, end: nat)
    requires At(file, place, KIDS) && base == place + |KIDS|
    requires ReadList(file, base) == Some(Listed(kids, end)) && ReadCount(file, end) == Some(|kids|)
    ensures ReadPages(file, place) == Some(kids)
  {
  }

  lemma ListAndCount(file: string, base: nat, end: nat, kids: seq<nat>)
    requires At(file, base, References(kids) + "]") && end == base + |References(kids)| + 1
    requires At(file, end, Filled(COUNT, [Dec(|kids|)], 1) + OBJECT_END)
    ensures ReadList(file, base) == Some(Listed(kids, end)) && ReadCount(file, end) == Some(|kids|)
  {
    CountIsRead(file, end, |kids|);
    ListIsRead(file, base, kids);
  }

  lemma PagesFromParts(file: string, place: nat, base: nat, end: nat, kids: seq<nat>)
    requires At(file, place, KIDS) && base == place + |KIDS|
    requires At(file, base, References(kids) + "]") && end == base + |References(kids)| + 1
    requires At(file, end, Filled(COUNT, [Dec(|kids|)], 1) + OBJECT_END)
    ensures ReadPages(file, place) == Some(kids)
  {
    ListAndCount(file, base, end, kids);
    PagesGiven(file, place, base, kids, end);
  }

  lemma PagesIsRead(file: string, place: nat, kids: seq<nat>)
    requires At(file, place, Render(Pages(kids, |kids|)) + OBJECT_END)
    ensures ReadPages(file, place) == Some(kids)
  {
    PagesApart(file, place, kids);
    var base := place + |KIDS|;
    PagesFromParts(file, place, base, base + |References(kids)| + 1, kids);
  }

  // ----- the whole file

  /** Where the text of an object begins: the table says where the object is, and its number
      stands there. */
  function ObjectPlace(file: string, table: Table, number: int): (r: Option<nat>)
    ensures r.Some? ==> r.value <= |file|
  {
    if number <= 0 then None
    else
      match Locate(file, table, number)
      case None => None
      case Some(place) =>
        if place < 0 || !At(file, place, Dec(number) + " 0 obj\n") then None
        else Some(place + |Dec(number) + " 0 obj\n"|)
  }

  function FrameOf(leaf: Leaf, drawn: (string, string), picture: Picture, tree: int): Option<Frame> {
    if leaf.parent == tree && leaf.boxWidth == drawn.0 && leaf.boxHeight == drawn.1 &&
       IsWord(drawn.0) && IsWord(drawn.1) && IsWord(picture.colorspace) && IsWord(picture.filter) &&
       picture.width >= 0 && picture.height >= 0 && picture.bits >= 0
    then Some(Frame(picture.width, picture.height, drawn.0, drawn.1, picture.colorspace, picture.bits, picture.filter, picture.data))
    else None
  }

  function Locator(file: string, table: Table): int -> Option<nat> {
    number => ObjectPlace(file, table, number)
  }

  /** A page, with what it draws and the image it shows. */
  function ReadFrame(file: string, locate: int -> Option<nat>, number: int, tree: int): Option<Frame> {
    match locate(number)
    case None => None
    case Some(place) =>
      match ReadPage(file, place)
      case None => None
      case Some(leaf) => ReadShown(file, locate, leaf, tree)
  }

  function ReadShown(file: string, locate: int -> Option<nat>, leaf: Leaf, tree: int): Option<Frame> {
    match locate(leaf.contents)
    case None => None
    case Some(contents) =>
      match ReadContent(file, contents)
      case None => None
      case Some(drawn) =>
        match locate(leaf.image)
        case None => None
        case Some(image) =>
          match ReadImage(file, image)
          case None => None
          case Some(picture) => FrameOf(leaf, drawn, picture, tree)
  }

  function FrameReader(file: string, locate: int -> Option<nat>, tree: int): int -> Option<Frame> {
    number => ReadFrame(file, locate, number, tree)
  }

  function Collected<T>(read: int -> Option<T>, numbers: seq<int>, n: nat): Option<seq<T>>
    requires n <= |numbers|
  {
    if n == 0 then Some([])
    else
      match Collected(read, numbers, n - 1)
      case None => None
      case Some(front) =>
        match read(numbers[n - 1])
        case None => None
        case Some(value) => Some(front + [value])
  }

  function ReadTree(file: string, locate: int -> Option<nat>, tree: int): Option<seq<Frame>> {
    match locate(tree)
    case None => None
    case Some(place) =>
      match ReadPages(file, place)
      case None => None
      case Some(kids) => Collected(FrameReader(file, locate, tree), kids, |kids|)
  }

  function ReadFrom(file: string, locate: int -> Option<nat>, root: int): Option<seq<Frame>> {
    match locate(root)
    case None => None
    case Some(place) =>
      match ReadCatalog(file, place)
      case None => None
      case Some(tree) => ReadTree(file, locate, tree)
  }

  /** From the end of the file to the frames, page by page. */
  function ReadPdf(file: string): Option<seq<Frame>> {
    match TablePlace(file)
    case None => None
    case Some(place) =>
      match ReadTable(file, place)
      case None => None
      case Some(table) =>
        match Root(file, table)
        case None => None
        case Some(root) => ReadFrom(file, Locator(file, table), root)
  }

  // ----- the round trip

  /** The object with this number is located, and its text stands there. */
  predicate Stands(file: string, locate: int -> Option<nat>, number: int, text: string) {
    locate(number).Some? && At(file, locate(number).value, text + OBJECT_END)
  }

  predicate AllStand(file: string, locate: int -> Option<nat>, objects: seq<Object>) {
    forall i :: 0 <= i < |objects| ==> Stands(file, locate, i + 1, Render(objects[i]))
  }

  lemma BodyApart(file: string, place: nat, number: nat, text: string)
    requires At(file, place, Body(number, text))
    ensures At(file, place, Dec(number) + " 0 obj\n")
    ensures At(file, place + |Dec(number) + " 0 obj\n"|, text + OBJECT_END)
  {
    var head := Dec(number) + " 0 obj\n";
    assert Body(number, text) == head + (text + OBJECT_END);
    AtPrefix(file, place, head, text + OBJECT_END);
  }

  /** The table gives this place for the object, and its body is there. */
  predicate Placed(file: string, table: Table, number: nat, place: nat, text: string) {
    Locate(file, table, number) == Some(place) && At(file, place, Body(number, text))
  }

  lemma ObjectIsPlaced(texts: seq<string>, i: nat)
    requires i < |texts| && Offset(texts, |texts| - 1) < LIMIT
    ensures Placed(File(texts), TableOf(texts), i + 1, Offset(texts, i), texts[i])
  {
    EveryObjectIsLocated(texts, i);
    EveryObjectIsThere(texts, i);
  }

  lemma PlacedStands(file: string, table: Table, number: nat, place: nat, text: string)
    requires number > 0 && Placed(file, table, number, place, text)
    ensures Stands(file, Locator(file, table), number, text)
  {
    BodyApart(file, place, number, text);
  }

  lemma ObjectsStand(objects: seq<Object>)
    requires objects != [] && Offset(Rendered(objects), |objects| - 1) < LIMIT
    ensures var texts := Rendered(objects); AllStand(File(texts), Locator(File(texts), TableOf(texts)), objects)
  {
    var texts := Rendered(objects);
    forall i | 0 <= i < |objects| ensures Stands(File(texts), Locator(File(texts), TableOf(texts)), i + 1, Render(objects[i])) {
      ObjectIsPlaced(texts, i);
      PlacedStands(File(texts), TableOf(texts), i + 1, Offset(texts, i), texts[i]);
    }
  }

  lemma FrameObjectsAre(frames: seq<Frame>, k: nat)
    requires k < |frames|
    ensures var objects, own := Objects(frames), FrameObjects(frames[k], 3 * k + 3);
            objects[3 * k + 2] == own[0] && objects[3 * k + 3] == own[1] && objects[3 * k + 4] == own[2]
  {
    var all := AllFrameObjects(frames, |frames|);
    FrameObjectsAt(frames, |frames|, k);
    assert all[3 * k] == all[3 * k..3 * k + 3][0] && all[3 * k + 1] == all[3 * k..3 * k + 3][1] &&
           all[3 * k + 2] == all[3 * k..3 * k + 3][2];
  }

  lemma ShownIsRead(file: string, locate: int -> Option<nat>, f: Frame, image: nat)
    requires Stands(file, locate, image, Render(Image(f.width, f.height, f.colorspace, f.bits, f.filter, f.data)))
    requires Stands(file, locate, image + 1, Render(Content(f.widthPt, f.heightPt)))
    ensures ReadShown(file, locate, Leaf(2, f.widthPt, f.heightPt, image, image + 1), 2) == Some(f)
  {
    ContentIsRead(file, locate(image + 1).value, Content(f.widthPt, f.heightPt));
    ImageIsRead(file, locate(image).value, Image(f.width, f.height, f.colorspace, f.bits, f.filter, f.data));
  }

  lemma FrameIsRead(file: string, locate: int -> Option<nat>, f: Frame, image: nat)
    requires Stands(file, locate, image, Render(Image(f.width, f.height, f.colorspace, f.bits, f.filter, f.data)))
    requires Stands(file, locate, image + 1, Render(Content(f.widthPt, f.heightPt)))
    requires Stands(file, locate, image + 2, Render(Page(2, f.widthPt, f.heightPt, image, image + 1)))
    ensures FrameReader(file, locate, 2)(image + 2) == Some(f)
  {
    PageIsRead(file, locate(image + 2).value, Page(2, f.widthPt, f.heightPt, image, image + 1));
    ShownIsRead(file, locate, f, image);
  }

  lemma FrameStands(file: string, locate: int -> Option<nat>, frames: seq<Frame>, k: nat)
    requires k < |frames| && AllStand(file, locate, Objects(frames))
    ensures FrameReader(file, locate, 2)(3 * k + 5) == Some(frames[k])
  {
    var objects := Objects(frames);
    FrameObjectsAre(frames, k);
    assert Stands(file, locate, 3 * k + 2 + 1, Render(objects[3 * k + 2]));
    assert Stands(file, locate, 3 * k + 3 + 1, Render(objects[3 * k + 3]));
    assert Stands(file, locate, 3 * k + 4 + 1, Render(objects[3 * k + 4]));
    FrameIsRead(file, locate, frames[k], 3 * k + 3);
  }

  ghost predicate Gives<T>(read: int -> Option<T>, numbers: seq<int>, values: seq<T>) {
    |numbers| == |values| && forall k :: 0 <= k < |numbers| ==> read(numbers[k]) == Some(values[k])
  }

  lemma {:induction false} CollectedInOrder<T>(read: int -> Option<T>, numbers: seq<int>, values: seq<T>, n: nat)
    requires Gives(read, numbers, values) && n <= |numbers|
    ensures Collected(read, numbers, n) == Some(values[..n])
  {
    if n > 0 {
      CollectedInOrder(read, numbers, values, n - 1);
      assert values[..n] == values[..n - 1] + [values[n - 1]];
    }
  }

  lemma FramesAreRead(file: string, locate: int -> Option<nat>, frames: seq<Frame>, kids: seq<nat>)
    requires AllStand(file, locate, Objects(frames)) && kids == KidsOf(|frames|)
    ensures Collected(FrameReader(file, locate, 2), kids, |kids|) == Some(frames)
  {
    var read, n := FrameReader(file, locate, 2), |frames|;
    KidsCount(n);
    forall k | 0 <= k < n ensures read(kids[k]) == Some(frames[k]) {
      FrameStands(file, locate, frames, k);
    }
    CollectedInOrder(read, kids, frames, n);
    assert frames[..n] == frames;
  }

  lemma FirstObjects(frames: seq<Frame>)
    ensures Objects(frames)[0] == Catalog(2) && Objects(frames)[1] == Pages(KidsOf(|frames|), |frames|) && |KidsOf(|frames|)| == |frames|
  {
    KidsCount(|frames|);
  }

  lemma TreeIsRead(file: string, locate: int -> Option<nat>, frames: seq<Frame>)
    requires AllStand(file, locate, Objects(frames))
    ensures ReadFrom(file, locate, 1) == Some(frames)
  {
    var objects, kids := Objects(frames), KidsOf(|frames|);
    FirstObjects(frames);
    assert Stands(file, locate, 0 + 1, Render(objects[0])) && Stands(file, locate, 1 + 1, Render(objects[1]));
    CatalogIsRead(file, locate(1).value, 2);
    PagesIsRead(file, locate(2).value, kids);
    FramesAreRead(file, locate, frames, kids);
  }

  lemma OffsetsFit(texts: seq<string>)
    requires texts != [] && |File(texts)| <= LIMIT
    ensures Offset(texts, |texts| - 1) < LIMIT
  {
    var rest := FileAfterBodies(texts);
    OffsetsRise(texts, |texts| - 1, |texts|);
  }

  lemma PdfGiven(file: string, place: int, table: Table, root: int, frames: seq<Frame>)
    requires TablePlace(file) == Some(place) && ReadTable(file, place) == Some(table) && Root(file, table) == Some(root)
    requires ReadFrom(file, Locator(file, table), root) == Some(frames)
    ensures ReadPdf(file) == Some(frames)
  {
  }

  lemma TextsAreRead(texts: seq<string>, frames: seq<Frame>)
    requires texts != [] && Offset(texts, |texts| - 1) < LIMIT
    requires ReadFrom(File(texts), Locator(File(texts), TableOf(texts)), 1) == Some(frames)
    ensures ReadPdf(File(texts)) == Some(frames)
  {
    PlaceOfFile(texts);
    TableOfFile(texts);
    RootIsFound(texts);
    PdfGiven(File(texts), |Bodies(texts, |texts|)|, TableOf(texts), 1, frames);
  }

  lemma FramesOfTexts(frames: seq<Frame>)
    requires Offset(Rendered(Objects(frames)), |Objects(frames)| - 1) < LIMIT
    ensures var texts := Rendered(Objects(frames));
            ReadFrom(File(texts), Locator(File(texts), TableOf(texts)), 1) == Some(frames)
  {
    var texts := Rendered(Objects(frames));
    ObjectsStand(Objects(frames));
    TreeIsRead(File(texts), Locator(File(texts), TableOf(texts)), frames);
  }

  /** A reader given nothing but the text gets the frames back, in order and byte for byte. */
  lemma ReaderUndoesWriter(frames: seq<Frame>)
    requires |File(Rendered(Objects(frames)))| <= LIMIT
    ensures ReadPdf(File(Rendered(Objects(frames)))) == Some(frames)
  {
    var texts := Rendered(Objects(frames));
    OffsetsFit(texts);
    FramesOfTexts(frames);
    TextsAreRead(texts, frames);
  }

  /** So two documents with different frames never become the same file, and the id taken from
      the file's digest tells them apart. */
  lemma FilesTellFramesApart(frames: seq<Frame>, others: seq<Frame>)
    requires |File(Rendered(Objects(frames)))| <= LIMIT
    ensures File(Rendered(Objects(frames))) == File(Rendered(Objects(others))) <==> frames == others
  {
    ReaderUndoesWriter(frames);
    if File(Rendered(Objects(frames))) == File(Rendered(Objects(others))) { ReaderUndoesWriter(others); }
  }
}
