/** The minimal PDF writer. One char stands for one byte. */
module PdfWriter {
  import opened Decimals

  // White space and the delimiters of section 7.2.2 of ISO 32000-1, as far as they are written.
  predicate IsDelimiter(c: char) {
    c == ' ' || c == '\n' || c == '/' || c == '[' || c == ']' || c == '<' || c == '>'
  }

  predicate IsWord(s: string) {
    s != "" && forall i :: 0 <= i < |s| ==> !IsDelimiter(s[i])
  }

  // A name or number, as it is written.
  type Word = s: string | IsWord(s) witness "0"

  // `widthPt` and `heightPt` are the page size in points as `%.4f` writes it.
  datatype Frame = Frame(
    width: nat,
    height: nat,
    widthPt: Word,
    heightPt: Word,
    colorspace: Word,
    bits: nat,
    filter: Word,
    data: string)

  datatype Object =
    | Catalog(pages: nat)
    | Pages(kids: seq<nat>, count: nat)
    | Image(width: nat, height: nat, colorspace: Word, bits: nat, filter: Word, data: string)
    | Content(widthPt: Word, heightPt: Word)
    | Page(parent: nat, boxWidth: Word, boxHeight: Word, image: nat, contents: nat)

  const HEADER: string := "%PDF-1.4\n%\U{e2}\U{e3}\U{cf}\U{d3}\n"
  const FREE: string := "0000000000 65535 f \n"

  // ----- objects as text

  function Reference(n: nat): string {
    Dec(n) + " 0 R"
  }

  /** `b" ".join(b"%d 0 R" % k for k in kids)` */
  function References(kids: seq<nat>): string {
    if kids == [] then ""
    else if |kids| == 1 then Reference(kids[0])
    else References(kids[..|kids| - 1]) + " " + Reference(kids[|kids| - 1])
  }

  function Drawing(widthPt: Word, heightPt: Word): string {
    "q " + widthPt + " 0 0 " + heightPt + " 0 0 cm /Im0 Do Q"
  }

  function Render(o: Object): string {
    match o
    case Catalog(pages) => "<< /Type /Catalog /Pages " + Dec(pages) + " 0 R >>"
    case Pages(kids, count) => "<< /Type /Pages /Kids [" + References(kids) + "] /Count " + Dec(count) + " >>"
    case Image(width, height, colorspace, bits, filter, data) =>
      "<< /Type /XObject /Subtype /Image /Width " + Dec(width) + " /Height " + Dec(height) +
      " /ColorSpace /" + colorspace + " /BitsPerComponent " + Dec(bits) + " /Filter /" + filter +
      " /Length " + Dec(|data|) + " >>\nstream\n" + data + "\nendstream"
    case Content(widthPt, heightPt) =>
      var content := Drawing(widthPt, heightPt);
      "<< /Length " + Dec(|content|) + " >>\nstream\n" + content + "\nendstream"
    case Page(parent, boxWidth, boxHeight, image, contents) =>
      "<< /Type /Page /Parent " + Dec(parent) + " 0 R /MediaBox [0 0 " + boxWidth + " " + boxHeight +
      "] /Resources << /XObject << /Im0 " + Dec(image) + " 0 R >> >> /Contents " + Dec(contents) + " 0 R >>"
  }

  function Rendered(objects: seq<Object>): seq<string> {
    seq(|objects|, i requires 0 <= i < |objects| => Render(objects[i]))
  }

  // ----- which objects there are: 1 the catalog, 2 the page tree, then three a frame

  function KidsOf(n: nat): seq<nat> {
    if n == 0 then [] else KidsOf(n - 1) + [3 * n + 2]
  }

  function FrameObjects(f: Frame, image: nat): seq<Object> {
    [Image(f.width, f.height, f.colorspace, f.bits, f.filter, f.data),
     Content(f.widthPt, f.heightPt),
     Page(2, f.widthPt, f.heightPt, image, image + 1)]
  }

  function AllFrameObjects(frames: seq<Frame>, n: nat): (objects: seq<Object>)
    requires n <= |frames|
    ensures |objects| == 3 * n
  {
    if n == 0 then [] else AllFrameObjects(frames, n - 1) + FrameObjects(frames[n - 1], 3 * n)
  }

  function Objects(frames: seq<Frame>): seq<Object> {
    [Catalog(2), Pages(KidsOf(|frames|), |frames|)] + AllFrameObjects(frames, |frames|)
  }

  // ----- the file

  function Body(number: nat, text: string): string {
    Dec(number) + " 0 obj\n" + text + "\nendobj\n"
  }

  function Bodies(texts: seq<string>, n: nat): string
    requires n <= |texts|
  {
    if n == 0 then HEADER else Bodies(texts, n - 1) + Body(n, texts[n - 1])
  }

  function Offset(texts: seq<string>, i: nat): nat
    requires i <= |texts|
  {
    |Bodies(texts, i)|
  }

  function Entry(offset: nat): string {
    Padded(offset) + " 00000 n \n"
  }

  function Entries(texts: seq<string>, n: nat): string
    requires n <= |texts|
  {
    if n == 0 then "" else Entries(texts, n - 1) + Entry(Offset(texts, n - 1))
  }

  function TableHead(size: nat): string {
    "xref\n0 " + Dec(size) + "\n"
  }

  function Trailer(size: nat, root: nat): string {
    "trailer\n<< /Size " + Dec(size) + " /Root " + Dec(root) + " 0 R >>\n"
  }

  function Ending(xref: nat): string {
    "startxref\n" + Dec(xref) + "\n%%EOF\n"
  }

  function File(texts: seq<string>): string {
    var n := |texts|;
    Bodies(texts, n) + TableHead(n + 1) + FREE + Entries(texts, n) + Trailer(n + 1, 1) + Ending(Offset(texts, n))
  }

  lemma RenderedConcat(a: seq<Object>, b: seq<Object>)
    ensures Rendered(a + b) == Rendered(a) + Rendered(b)
  {
  }

  lemma RenderedThree(x: Object, y: Object, z: Object)
    ensures Rendered([x, y, z]) == [Render(x)] + [Render(y)] + [Render(z)]
  {
  }

  lemma FirstTwo(x: Object, y: Object, rest: seq<string>)
    ensures (["", ""] + rest)[0 := Render(x)][1 := Render(y)] == Rendered([x, y]) + rest
  {
  }

  /** The first half of `_pdf`: number the objects as they are added, and fill in the first two
      once the page tree is known. */
  method Build(frames: seq<Frame>) returns (objects: seq<string>)
    ensures objects == Rendered(Objects(frames))
  {
    objects := ["", ""];
    var kids: seq<nat> := [];
    for k := 0 to |frames|
      invariant kids == KidsOf(k)
      invariant objects == ["", ""] + Rendered(AllFrameObjects(frames, k))
    {
      var f := frames[k];
      ghost var before := objects;
      var image := |objects| + 1;
      objects := objects + [Render(Image(f.width, f.height, f.colorspace, f.bits, f.filter, f.data))];
      var contents := |objects| + 1;
      objects := objects + [Render(Content(f.widthPt, f.heightPt))];
      kids := kids + [|objects| + 1];
      objects := objects + [Render(Page(2, f.widthPt, f.heightPt, image, contents))];
      FrameAdded(frames, k, before, objects);
    }
    KidsCount(|frames|);
    ghost var later := AllFrameObjects(frames, |frames|);
    FirstTwo(Catalog(2), Pages(kids, |kids|), Rendered(later));
    RenderedConcat([Catalog(2), Pages(kids, |kids|)], later);
    objects := objects[0 := Render(Catalog(2))];
    objects := objects[1 := Render(Pages(kids, |kids|))];
  }

  lemma FrameAdded(frames: seq<Frame>, k: nat, before: seq<string>, after: seq<string>)
    requires k < |frames| && before == ["", ""] + Rendered(AllFrameObjects(frames, k))
    requires var f, image := frames[k], 3 * k + 3;
             after == before + [Render(Image(f.width, f.height, f.colorspace, f.bits, f.filter, f.data))]
                             + [Render(Content(f.widthPt, f.heightPt))]
                             + [Render(Page(2, f.widthPt, f.heightPt, image, image + 1))]
    ensures after == ["", ""] + Rendered(AllFrameObjects(frames, k + 1))
  {
    var f, image := frames[k], 3 * k + 3;
    RenderedConcat(AllFrameObjects(frames, k), FrameObjects(f, image));
    RenderedThree(Image(f.width, f.height, f.colorspace, f.bits, f.filter, f.data),
                  Content(f.widthPt, f.heightPt),
                  Page(2, f.widthPt, f.heightPt, image, image + 1));
  }

  /** The second half: write the objects down, remembering where each one starts. */
  method WriteBodies(objects: seq<string>) returns (out: string, offsets: seq<nat>)
    ensures out == Bodies(objects, |objects|)
    ensures |offsets| == |objects| && forall j :: 0 <= j < |offsets| ==> offsets[j] == Offset(objects, j)
  {
    out := HEADER;
    offsets := [];
    for i := 0 to |objects|
      invariant out == Bodies(objects, i)
      invariant |offsets| == i && forall j :: 0 <= j < i ==> offsets[j] == Offset(objects, j)
    {
      offsets := offsets + [|out|];
      out := out + Body(i + 1, objects[i]);
    }
  }

  method WriteEntries(objects: seq<string>, offsets: seq<nat>) returns (out: string)
    requires |offsets| == |objects| && forall j :: 0 <= j < |offsets| ==> offsets[j] == Offset(objects, j)
    ensures out == Entries(objects, |objects|)
  {
    out := "";
    for i := 0 to |offsets|
      invariant out == Entries(objects, i)
    {
      out := out + Entry(offsets[i]);
    }
  }

  /** `_pdf` */
  method Write(frames: seq<Frame>) returns (out: string)
    ensures out == File(Rendered(Objects(frames)))
  {
    var objects := Build(frames);
    var offsets: seq<nat>;
    out, offsets := WriteBodies(objects);
    var xref := |out|;
    var entries := WriteEntries(objects, offsets);
    out := out + TableHead(|objects| + 1) + FREE + entries + Trailer(|objects| + 1, 1) + Ending(xref);
  }

  lemma {:induction false} KidsCount(n: nat)
    ensures |KidsOf(n)| == n && forall k :: 0 <= k < n ==> KidsOf(n)[k] == 3 * k + 5
  {
    if n > 0 { KidsCount(n - 1); }
  }

  lemma {:induction false} FrameObjectsAt(frames: seq<Frame>, n: nat, k: nat)
    requires k < n <= |frames|
    ensures AllFrameObjects(frames, n)[3 * k..3 * k + 3] == FrameObjects(frames[k], 3 * k + 3)
  {
    if k < n - 1 { FrameObjectsAt(frames, n - 1, k); }
  }
}
