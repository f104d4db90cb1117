/** The pure parts of cronprint's IPP printer: the rewrite of an `ipp://` or
    `ipps://` printer URI to the HTTP URI the request is posted to, the document
    format chosen from a file name, and the one-page PDF printed as a test page,
    whose cross-reference table must point at its own objects. */
module CronPrinter {
  import opened Text

  // ------------------------------------------------------------ URI rewrite

  /** The printer: the URI as configured (sent as `printer-uri`) and the HTTP URI. */
  datatype IppPrinter = IppPrinter(uri: string, httpUri: string)

  function NewIppPrinter(uri: string): (p: IppPrinter)
    ensures p.uri == uri
    ensures StartsWith(uri, "ipp://") ==> p.httpUri == "http://" + uri[|"ipp://"|..]
    ensures StartsWith(uri, "ipps://") ==> p.httpUri == "https://" + uri[|"ipps://"|..]
    ensures !StartsWith(uri, "ipp://") && !StartsWith(uri, "ipps://") ==> p.httpUri == uri
  {
    IppsIsNotIpp(uri);
    var httpUri :=
      if StartsWith(uri, "ipp://") then "http://" + TrimPrefix(uri, "ipp://")
      else if StartsWith(uri, "ipps://") then "https://" + TrimPrefix(uri, "ipps://")
      else uri;
    IppPrinter(uri, httpUri)
  }

  /** The two schemes are told apart at their fourth character. */
  lemma IppsIsNotIpp(uri: string)
    ensures StartsWith(uri, "ipps://") ==> !StartsWith(uri, "ipp://")
  {
    if StartsWith(uri, "ipps://") {
      assert uri[..7][3] == 's';
      assert uri[3] != "ipp://"[3];
    }
  }

  /** The rewrite only swaps the scheme: what follows it is kept, it never yields an IPP
      scheme again, and so rewriting the HTTP URI a second time changes nothing. */
  lemma RewriteKeepsRest(uri: string)
    ensures StartsWith(uri, "ipp://") ==> TrimPrefix(NewIppPrinter(uri).httpUri, "http://") == TrimPrefix(uri, "ipp://")
    ensures StartsWith(uri, "ipps://") ==> TrimPrefix(NewIppPrinter(uri).httpUri, "https://") == TrimPrefix(uri, "ipps://")
    ensures var h := NewIppPrinter(uri).httpUri;
      (StartsWith(uri, "ipp://") || StartsWith(uri, "ipps://")) ==> !StartsWith(h, "ipp://") && !StartsWith(h, "ipps://")
    ensures NewIppPrinter(NewIppPrinter(uri).httpUri).httpUri == NewIppPrinter(uri).httpUri
  {
    var h := NewIppPrinter(uri).httpUri;
    if StartsWith(uri, "ipp://") {
      assert h[..7] == "http://";
      assert h[0] == 'h';
    } else if StartsWith(uri, "ipps://") {
      assert h[..8] == "https://";
      assert h[0] == 'h';
    }
  }

  /** `ipp://h/p` is posted to `http://h/p`, `ipps://h/p` to `https://h/p`, and an HTTP
      URI is used as it is. */
  lemma RewriteExamples()
    ensures NewIppPrinter("ipp://h/p") == IppPrinter("ipp://h/p", "http://h/p")
    ensures NewIppPrinter("ipps://h/p").httpUri == "https://h/p"
    ensures NewIppPrinter("http://h/p").httpUri == "http://h/p"
  {
    assert "ipp://h/p"[..6] == "ipp://";
    assert "ipp://h/p"[6..] == "h/p";
    IppsIsNotIpp("ipps://h/p");
    assert "ipps://h/p"[..7] == "ipps://";
    assert "ipps://h/p"[7..] == "h/p";
    assert "http://h/p"[0] != 'i';
  }

  // ------------------------------------------------------------ document format

  const PDF_MIME := "application/pdf"
  const POSTSCRIPT_MIME := "application/postscript"
  const OCTET_STREAM_MIME := "application/octet-stream"

  /** The `document-format` sent with a file: chosen by its suffix. */
  function MimeType(path: string): (m: string)
    ensures m == PDF_MIME <==> EndsWith(path, ".pdf")
    ensures m == POSTSCRIPT_MIME <==> EndsWith(path, ".ps")
    ensures m == OCTET_STREAM_MIME <==> !EndsWith(path, ".pdf") && !EndsWith(path, ".ps")
  {
    SuffixesExclusive(path);
    if EndsWith(path, ".pdf") then PDF_MIME
    else if EndsWith(path, ".ps") then POSTSCRIPT_MIME
    else OCTET_STREAM_MIME
  }

  /** No name ends with both `.pdf` and `.ps`, so the order of the two tests does not matter. */
  lemma SuffixesExclusive(path: string)
    ensures !(EndsWith(path, ".pdf") && EndsWith(path, ".ps"))
  {
    if EndsWith(path, ".pdf") {
      assert path[|path| - 4..][3] == 'f';
      assert path[|path| - 1] != ".ps"[2];
    }
  }

  // ------------------------------------------------------------ test page layout

  const HEADER := "%PDF-1.4\n"
  const EOF_MARKER := "%%EOF\n"
  const STREAM := "BT /F1 24 Tf 100 400 Td (cronprint test page) Tj ET"
  const CATALOG := "<< /Type /Catalog /Pages 2 0 R >>"
  const PAGES := "<< /Type /Pages /Kids [3 0 R] /Count 1 >>"
  const PAGE := "<< /Type /Page /Parent 2 0 R /MediaBox [0 0 612 792] /Contents 4 0 R /Resources << /Font << /F1 5 0 R >> >> >>"
  const FONT := "<< /Type /Font /Subtype /Type1 /BaseFont /Helvetica >>"
  const FREE_ENTRY := "0000000000 65535 f \n"
  const IN_USE_SUFFIX := " 00000 n \n"

  /** The line that opens indirect object `k` (generation 0). */
  function ObjHeader(k: nat): (h: string)
    ensures |h| == |NatToString(k)| + 6 && h[|h| - 6..] == " 0 obj"
  {
    NatToString(k) + " 0 obj"
  }

  /** Indirect object `k` with the given contents. */
  function Obj(k: nat, contents: string): (o: string)
    ensures StartsWith(o, ObjHeader(k))
  {
    ObjHeader(k) + "\n" + contents + "\nendobj\n"
  }

  /** The contents of the page's content stream object. */
  function StreamContents(): string {
    "<< /Length " + NatToString(|STREAM|) + " >>\nstream\n" + STREAM + "\nendstream"
  }

  /** The five objects in file order: catalog, page tree, page, content stream, font. */
  const CONTENTS: seq<string> := [CATALOG, PAGES, PAGE, StreamContents(), FONT]

  /** Indirect objects over the given contents, numbered from 1 in the order given. */
  function Numbered(contents: seq<string>): (objects: seq<string>)
    ensures |objects| == |contents|
    ensures forall i | 0 <= i < |contents| :: StartsWith(objects[i], ObjHeader(i + 1))
  {
    seq(|contents|, i requires 0 <= i < |contents| => Obj(i + 1, contents[i]))
  }

  const OBJECTS: seq<string> := Numbered(CONTENTS)

  /** The strings of a sequence one after the other. */
  function Concat(parts: seq<string>): string {
    if parts == [] then "" else Concat(parts[..|parts| - 1]) + parts[|parts| - 1]
  }

  lemma ConcatSnoc(parts: seq<string>, k: nat)
    requires k < |parts|
    ensures Concat(parts[..k + 1]) == Concat(parts[..k]) + parts[k]
  {
    assert parts[..k + 1][..k] == parts[..k];
  }

  /** Part `k` sits between the parts before it and the parts after it. */
  lemma {:induction false} ConcatSplit(parts: seq<string>, k: nat)
    requires k < |parts|
    ensures Concat(parts) == Concat(parts[..k]) + parts[k] + Concat(parts[k + 1..])
    decreases |parts|
  {
    var n := |parts| - 1;
    if k == n {
      assert parts[k + 1..] == [];
      assert parts[..n] == parts[..k];
    } else {
      var init := parts[..n];
      ConcatSplit(init, k);
      assert init[..k] == parts[..k];
      assert init[k + 1..] == parts[k + 1..][..|parts[k + 1..]| - 1];
      assert parts[k + 1..][|parts[k + 1..]| - 1] == parts[n];
    }
  }

  /** Everything before the cross-reference section. */
  function Body(objects: seq<string>): string {
    HEADER + Concat(objects)
  }

  /** Where object `i + 1` begins. */
  function Offset(objects: seq<string>, i: nat): nat
    requires i < |objects|
  {
    |HEADER| + |Concat(objects[..i])|
  }

  function Offsets(objects: seq<string>): (offs: seq<nat>)
    ensures |offs| == |objects|
  {
    seq(|objects|, i requires 0 <= i < |objects| => Offset(objects, i))
  }

  /** One in-use cross-reference entry (`%010d 00000 n \n`). */
  function XrefEntry(off: nat): string {
    ZeroPad(off, 10) + IN_USE_SUFFIX
  }

  /** One entry per offset, in order. */
  function XrefLines(offs: seq<nat>): (lines: seq<string>)
    ensures |lines| == |offs|
  {
    seq(|offs|, j requires 0 <= j < |offs| => XrefEntry(offs[j]))
  }

  function XrefEntries(offs: seq<nat>): string {
    Concat(XrefLines(offs))
  }

  /** The cross-reference section: one subsection for object 0 and the given objects. */
  function XrefSection(objects: seq<string>): string {
    XrefHead(|objects| + 1) + XrefEntries(Offsets(objects))
  }

  /** The keyword, the subsection header for objects 0 to `size - 1` and the free entry. */
  function XrefHead(size: nat): string {
    "xref\n" + "0 " + NatToString(size) + "\n" + FREE_ENTRY
  }

  /** The trailer, pointing at a cross-reference section that starts at `xref`. */
  function Trailer(size: nat, xref: nat): string {
    TrailerDict(size) + StartXref(xref)
  }

  function TrailerDict(size: nat): string {
    "trailer\n" + "<< /Size " + NatToString(size) + " /Root 1 0 R >>\n"
  }

  /** The last lines: the position of the cross-reference section and the marker. */
  function StartXref(xref: nat): string {
    "startxref\n" + NatToString(xref) + "\n" + EOF_MARKER
  }

  /** The file laid out around the given objects. */
  function Pdf(objects: seq<string>): string {
    Body(objects) + XrefSection(objects) + Trailer(|objects| + 1, |Body(objects)|)
  }

  /** The test page. */
  function MinimalPdf(): string {
    Pdf(OBJECTS)
  }

  /** The first half of `generateMinimalPDF`: the header and the five objects, each
      object's offset recorded before it is written. */
  method WriteObjects(objects: seq<string>, offsets: array<nat>) returns (buf: string)
    requires |objects| == 5 && offsets.Length == 5
    modifies offsets
    ensures buf == Body(objects) && offsets[..] == Offsets(objects)
  {
    buf := HEADER;
    assert buf == HEADER + Concat(objects[..0]);
    offsets[0] := |buf|;
    buf := buf + objects[0];
    ConcatSnoc(objects, 0);
    offsets[1] := |buf|;
    buf := buf + objects[1];
    ConcatSnoc(objects, 1);
    offsets[2] := |buf|;
    buf := buf + objects[2];
    ConcatSnoc(objects, 2);
    offsets[3] := |buf|;
    buf := buf + objects[3];
    ConcatSnoc(objects, 3);
    offsets[4] := |buf|;
    buf := buf + objects[4];
    ConcatSnoc(objects, 4);
    assert objects[..5] == objects;
  }

  /** The loop of `generateMinimalPDF` that writes one cross-reference entry per offset. */
  method WriteXrefEntries(offsets: array<nat>, head: string) returns (buf: string)
    ensures buf == head + XrefEntries(offsets[..])
  {
    ghost var lines := XrefLines(offsets[..]);
    buf := head;
    for i := 0 to offsets.Length
      invariant buf == head + Concat(lines[..i])
    {
      ConcatSnoc(lines, i);
      buf := buf + XrefEntry(offsets[i]);
    }
    assert lines[..offsets.Length] == lines;
  }

  /** `generateMinimalPDF` over its five objects: the objects, then the
      cross-reference section over the recorded offsets, then the trailer pointing
      back at it. */
  method WritePdf(objects: seq<string>) returns (pdf: string)
    requires |objects| == 5
    ensures pdf == Pdf(objects)
  {
    var offsets := new nat[5];
    var buf := WriteObjects(objects, offsets);
    var body := buf;
    var xrefOffset := |buf|;
    buf := buf + "xref\n";
    buf := buf + "0 " + NatToString(offsets.Length + 1) + "\n";
    buf := buf + FREE_ENTRY;
    assert buf == body + XrefHead(|objects| + 1);
    buf := WriteXrefEntries(offsets, buf);
    assert buf == body + XrefSection(objects);
    var xref := buf;
    buf := buf + "trailer\n";
    buf := buf + "<< /Size " + NatToString(offsets.Length + 1) + " /Root 1 0 R >>\n";
    assert buf == xref + TrailerDict(|objects| + 1);
    var dict := buf;
    buf := buf + "startxref\n";
    buf := buf + NatToString(xrefOffset) + "\n";
    buf := buf + EOF_MARKER;
    assert buf == dict + StartXref(xrefOffset);
    pdf := buf;
  }

  /** `generateMinimalPDF`. */
  method GenerateMinimalPdf() returns (pdf: string)
    ensures pdf == MinimalPdf()
  {
    pdf := WritePdf(OBJECTS);
  }

  // ------------------------------------------------------------ layout properties

  function Pow10(k: nat): (p: nat)
    ensures p >= 1
  {
    if k == 0 then 1 else 10 * Pow10(k - 1)
  }

  /** A number below 10^k has at most k digits. */
  lemma {:induction false} NatToStringFits(n: nat, k: nat)
    requires 1 <= k && n < Pow10(k)
    ensures |NatToString(n)| <= k
  {
    if n >= 10 {
      assert n / 10 < Pow10(k - 1);
      NatToStringFits(n / 10, k - 1);
    }
  }

  // Regrouping and slicing facts about concatenation, stated over any sequences so
  // that the literal contents of the file never enter their proofs.

  lemma InnerSlice<T>(a: seq<T>, b: seq<T>, c: seq<T>, lo: nat, hi: nat)
    requires lo <= hi <= |b|
    ensures (a + b + c)[|a| + lo..|a| + hi] == b[lo..hi]
  {
  }

  lemma Regroup3<T>(a: seq<T>, b: seq<T>, c: seq<T>)
    ensures a + (b + c) == a + b + c
  {
  }

  /** The lengths of the parts add up. */
  lemma {:induction false} ConcatLength(parts: seq<string>, bound: nat)
    requires forall i | 0 <= i < |parts| :: |parts[i]| <= bound
    ensures |Concat(parts)| <= |parts| * bound
    decreases |parts|
  {
    if parts != [] {
      ConcatLength(parts[..|parts| - 1], bound);
    }
  }

  lemma PrefixKept<T>(a: seq<T>, b: seq<T>, k: nat)
    requires k <= |a|
    ensures (a + b)[..k] == a[..k]
  {
  }

  lemma SuffixKept<T>(a: seq<T>, b: seq<T>, k: nat)
    requires k <= |b|
    ensures (a + b)[|a + b| - k..] == b[|b| - k..]
  {
  }

  /** The file starts with the version header and ends with the end-of-file marker. */
  lemma PdfFraming(objects: seq<string>)
    ensures StartsWith(Pdf(objects), "%PDF-1.4\n")
    ensures EndsWith(Pdf(objects), "%%EOF\n")
  {
    PdfStartsWithHeader(objects);
    PdfEndsWithMarker(objects);
  }

  lemma PdfStartsWithHeader(objects: seq<string>)
    ensures StartsWith(Pdf(objects), HEADER)
  {
    var c := Concat(objects);
    var xs := XrefSection(objects);
    PrefixKept(HEADER + c + xs, Trailer(|objects| + 1, |Body(objects)|), |HEADER|);
    PrefixKept(HEADER + c, xs, |HEADER|);
    PrefixKept(HEADER, c, |HEADER|);
  }

  lemma PdfEndsWithMarker(objects: seq<string>)
    ensures EndsWith(Pdf(objects), EOF_MARKER)
  {
    var x := |Body(objects)|;
    assert EndsWith(EOF_MARKER, EOF_MARKER);
    EndsWithAppend("startxref\n" + NatToString(x) + "\n", EOF_MARKER, EOF_MARKER);
    EndsWithAppend(TrailerDict(|objects| + 1), StartXref(x), EOF_MARKER);
    EndsWithAppend(Body(objects) + XrefSection(objects), Trailer(|objects| + 1, x), EOF_MARKER);
  }

  lemma EndsWithAppend(a: string, b: string, t: string)
    requires EndsWith(b, t)
    ensures EndsWith(a + b, t)
  {
    assert (a + b)[|a + b| - |t|..] == b[|b| - |t|..];
  }

  /** `t` occurs in `s` at position `at`. */
  predicate At(s: string, at: nat, t: string) {
    at + |t| <= |s| && s[at..at + |t|] == t
  }

  /** The `width` characters of `s` at `at` are decimal digits that read as `v`. */
  predicate DigitsAt(s: string, at: nat, width: nat, v: nat) {
    at + width <= |s| && AllDigits(s[at..at + width]) && DigitsValue(s[at..at + width]) == v
  }

  lemma AtLeft(a: string, b: string, at: nat, t: string)
    requires At(a, at, t)
    ensures At(a + b, at, t)
  {
    assert (a + b)[at..at + |t|] == a[at..at + |t|];
  }

  lemma AtRight(a: string, b: string, at: nat, t: string)
    requires At(b, at, t)
    ensures At(a + b, |a| + at, t)
  {
    assert (a + b)[|a| + at..|a| + at + |t|] == b[at..at + |t|];
  }

  lemma AtSplit(s: string, at: nat, x: string, y: string)
    requires At(s, at, x + y)
    ensures At(s, at, x) && At(s, at + |x|, y)
  {
    assert s[at..at + |x|] == (x + y)[..|x|];
    assert s[at + |x|..at + |x| + |y|] == (x + y)[|x|..];
  }

  lemma AtStart(s: string, at: nat, o: string, h: string)
    requires At(s, at, o) && StartsWith(o, h)
    ensures At(s, at, h)
  {
    assert s[at..at + |h|] == s[at..at + |o|][..|h|];
  }

  lemma AtDigits(s: string, at: nat, d: string)
    requires At(s, at, d) && AllDigits(d)
    ensures DigitsAt(s, at, |d|, DigitsValue(d))
  {
  }

  /** The recorded offset of object `i + 1` is where its text begins in the file. */
  lemma OffsetsPointAtObjects(objects: seq<string>, i: nat)
    requires i < |objects|
    ensures At(Pdf(objects), Offsets(objects)[i], objects[i])
  {
    ConcatSplit(objects, i);
    var front := Concat(objects[..i]);
    var back := Concat(objects[i + 1..]);
    assert At(objects[i], 0, objects[i]);
    AtLeft(objects[i], back, 0, objects[i]);
    AtRight(front, objects[i] + back, 0, objects[i]);
    assert front + (objects[i] + back) == Concat(objects);
    AtRight(HEADER, Concat(objects), |front|, objects[i]);
    AtLeft(Body(objects), XrefSection(objects), Offsets(objects)[i], objects[i]);
    AtLeft(Body(objects) + XrefSection(objects), Trailer(|objects| + 1, |Body(objects)|), Offsets(objects)[i], objects[i]);
  }

  /** Parts of 20 bytes each concatenate to 20 bytes per part. */
  lemma {:induction false} ConcatOfEntriesLength(parts: seq<string>)
    requires forall j | 0 <= j < |parts| :: |parts[j]| == 20
    ensures |Concat(parts)| == 20 * |parts|
    decreases |parts|
  {
    if parts != [] {
      ConcatOfEntriesLength(parts[..|parts| - 1]);
    }
  }

  /** In a concatenation of 20-byte parts, part `i` starts at byte `20 * i`. */
  lemma {:induction false} ConcatOfEntries(parts: seq<string>, i: nat)
    requires forall j | 0 <= j < |parts| :: |parts[j]| == 20
    requires i < |parts|
    ensures At(Concat(parts), 20 * i, parts[i])
    decreases |parts|
  {
    var n := |parts| - 1;
    var init := parts[..n];
    if i < n {
      ConcatOfEntries(init, i);
      AtLeft(Concat(init), parts[n], 20 * i, parts[i]);
    } else {
      ConcatOfEntriesLength(init);
      assert At(parts[n], 0, parts[n]);
      AtRight(Concat(init), parts[n], 0, parts[n]);
    }
  }

  /** An offset below 10^10 gives an entry of 20 bytes: ten digits, then ` 00000 n \n`. */
  lemma EntryWidth(off: nat)
    requires off < Pow10(10)
    ensures |ZeroPad(off, 10)| == 10 && |XrefEntry(off)| == 20
  {
    NatToStringFits(off, 10);
    ZeroPadValue(off, 10);
  }

  /** With every offset below 10^10 the table is 20 bytes per entry, and entry `i`
      starts at byte `20 * i`. */
  lemma XrefEntriesLayout(offs: seq<nat>, i: nat)
    requires forall j | 0 <= j < |offs| :: offs[j] < Pow10(10)
    requires i < |offs|
    ensures |XrefEntries(offs)| == 20 * |offs|
    ensures At(XrefEntries(offs), 20 * i, XrefEntry(offs[i]))
  {
    var lines := XrefLines(offs);
    forall j | 0 <= j < |lines|
      ensures |lines[j]| == 20
    {
      EntryWidth(offs[j]);
    }
    ConcatOfEntriesLength(lines);
    ConcatOfEntries(lines, i);
  }

  /** Every offset is below 10^10 while the body is. */
  lemma OffsetsFit(objects: seq<string>)
    requires |Body(objects)| < Pow10(10)
    ensures forall j | 0 <= j < |objects| :: Offsets(objects)[j] < Pow10(10)
  {
    forall j | 0 <= j < |objects|
      ensures Offsets(objects)[j] < Pow10(10)
    {
      ConcatSplit(objects, j);
    }
  }

  /** Where entry `i` of the table lies in the file: after the body, the section head
      and `i` entries of 20 bytes. */
  function EntryPosition(objects: seq<string>, i: nat): nat {
    |Body(objects)| + |XrefHead(|objects| + 1)| + 20 * i
  }

  /** Entry `i` of the cross-reference table lies in the file at its computed position. */
  lemma EntryInFile(objects: seq<string>, i: nat)
    requires |Body(objects)| < Pow10(10)
    requires i < |objects|
    ensures At(Pdf(objects), EntryPosition(objects, i), XrefEntry(Offsets(objects)[i]))
  {
    var entries := XrefEntries(Offsets(objects));
    var entry := XrefEntry(Offsets(objects)[i]);
    var head := XrefHead(|objects| + 1);
    OffsetsFit(objects);
    XrefEntriesLayout(Offsets(objects), i);
    AtRight(head, entries, 20 * i, entry);
    AtRight(Body(objects), XrefSection(objects), |head| + 20 * i, entry);
    AtLeft(Body(objects) + XrefSection(objects), Trailer(|objects| + 1, |Body(objects)|), EntryPosition(objects, i), entry);
  }

  /** Entry `i` of the cross-reference table reads back, as a decimal number, the offset
      at which object `i + 1` begins, followed by the in-use marker. */
  lemma XrefReadsBackOffsets(objects: seq<string>, i: nat)
    requires |Body(objects)| < Pow10(10)
    requires i < |objects|
    ensures DigitsAt(Pdf(objects), EntryPosition(objects, i), 10, Offsets(objects)[i])
    ensures At(Pdf(objects), EntryPosition(objects, i) + 10, IN_USE_SUFFIX)
  {
    EntryInFile(objects, i);
    OffsetsFit(objects);
    EntryReadsBack(Pdf(objects), EntryPosition(objects, i), Offsets(objects)[i]);
  }

  /** An entry for an offset below 10^10 reads back as that offset. */
  lemma EntryReadsBack(s: string, e: nat, off: nat)
    requires At(s, e, XrefEntry(off)) && off < Pow10(10)
    ensures DigitsAt(s, e, 10, off) && At(s, e + 10, IN_USE_SUFFIX)
  {
    EntryWidth(off);
    ZeroPadValue(off, 10);
    AtSplit(s, e, ZeroPad(off, 10), IN_USE_SUFFIX);
    AtDigits(s, e, ZeroPad(off, 10));
  }

  /** The number after `startxref` is the position of the `xref` keyword. */
  lemma StartxrefFindsXref(objects: seq<string>)
    ensures var x := |Body(objects)|;
      && At(Pdf(objects), x, "xref\n")
      && EndsWith(Pdf(objects), StartXref(x))
      && DigitsValue(NatToString(x)) == x
  {
    var x := |Body(objects)|;
    NatToStringValue(x);
    var h := XrefHead(|objects| + 1);
    var rest := "0 " + NatToString(|objects| + 1) + "\n" + FREE_ENTRY;
    assert h == "xref\n" + rest;
    assert At("xref\n", 0, "xref\n");
    AtLeft("xref\n", rest, 0, "xref\n");
    AtLeft(h, XrefEntries(Offsets(objects)), 0, "xref\n");
    AtRight(Body(objects), XrefSection(objects), 0, "xref\n");
    AtLeft(Body(objects) + XrefSection(objects), Trailer(|objects| + 1, x), x, "xref\n");
    assert EndsWith(StartXref(x), StartXref(x));
    EndsWithAppend(TrailerDict(|objects| + 1), StartXref(x), StartXref(x));
    EndsWithAppend(Body(objects) + XrefSection(objects), Trailer(|objects| + 1, x), StartXref(x));
  }

  /** The test page is small: its body is far below the ten-digit offset limit. */
  lemma TestPageFits()
    ensures |Body(OBJECTS)| < Pow10(10)
  {
    NatToStringFits(|STREAM|, 2);
    forall i | 0 <= i < |OBJECTS|
      ensures |OBJECTS[i]| <= 200
    {
      NatToStringFits(i + 1, 1);
    }
    ConcatLength(OBJECTS, 200);
  }

  /** In a file over numbered objects, entry `i` of the cross-reference table reads
      back as a position at which the text `i + 1 0 obj` begins. */
  lemma XrefFindsObject(contents: seq<string>, i: nat)
    requires |Body(Numbered(contents))| < Pow10(10)
    requires i < |contents|
    ensures var objects := Numbered(contents);
      var pdf, off := Pdf(objects), Offsets(objects)[i];
      DigitsAt(pdf, EntryPosition(objects, i), 10, off) && At(pdf, off, ObjHeader(i + 1))
  {
    var objects := Numbered(contents);
    XrefReadsBackOffsets(objects, i);
    OffsetsPointAtObjects(objects, i);
    AtStart(Pdf(objects), Offsets(objects)[i], objects[i], ObjHeader(i + 1));
  }

  /** The test page's cross-reference table is correct: entry `i` reads back as a
      position at which the text `i + 1 0 obj` begins, and the section and the trailer
      both count six objects (the free object 0 and the five written). */
  lemma TestPageXref(i: nat)
    requires i < 5
    ensures var pdf, off := MinimalPdf(), Offsets(OBJECTS)[i];
      DigitsAt(pdf, EntryPosition(OBJECTS, i), 10, off) && At(pdf, off, ObjHeader(i + 1))
    ensures |OBJECTS| + 1 == 6 && NatToString(|OBJECTS| + 1) == "6"
  {
    TestPageFits();
    XrefFindsObject(CONTENTS, i);
  }

  /** The stream object's `/Length` is the length of its data: the number after
      `/Length` reads as that length, and exactly that many bytes after `stream` come
      the drawing commands, followed by `endstream`. */
  lemma StreamLengthMatches()
    ensures var c, d := StreamContents(), NatToString(|STREAM|);
      var start := |"<< /Length "| + |d| + |" >>\nstream\n"|;
      && |"<< /Length "| + |d| <= |c| && c[|"<< /Length "|..|"<< /Length "| + |d|] == d
      && DigitsValue(d) == |STREAM|
      && start + |STREAM| <= |c| && c[start..start + |STREAM|] == STREAM
      && c[start + |STREAM|..] == "\nendstream"
  {
    var a, d, b, tail := "<< /Length ", NatToString(|STREAM|), " >>\nstream\n", "\nendstream";
    NatToStringValue(|STREAM|);
    var c := StreamContents();
    assert c == a + d + b + STREAM + tail;
    Regroup3(a + d, b + STREAM, tail);
    Regroup3(a + d, b, STREAM);
    InnerSlice(a, d, b + STREAM + tail, 0, |d|);
    InnerSlice(a + d + b, STREAM, tail, 0, |STREAM|);
    SuffixKept(a + d + b + STREAM, tail, |tail|);
  }
}
