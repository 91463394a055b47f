/** Text extraction from one PDF (`extract_data`): every page whose text is not
    blank after stripping whitespace, in page order, up to the first page whose
    text cannot be read. Failures are swallowed, and the document handle is
    closed on every path on which it was opened. */
module Extraction {
  import opened Wrappers

  /** Python's `str.isspace` for one character: the Unicode white-space set that
      `str.strip()` removes when called without arguments. */
  predicate IsSpace(c: char) {
    ('\t' <= c <= '\r') || ('\U{1C}' <= c <= '\U{1F}') || c == ' '
    || c == '\U{85}' || c == '\U{A0}' || c == '\U{1680}'
    || ('\U{2000}' <= c <= '\U{200A}') || c == '\U{2028}' || c == '\U{2029}'
    || c == '\U{202F}' || c == '\U{205F}' || c == '\U{3000}'
  }

  /** `s.lstrip()` */
  function LStrip(s: string): string {
    if s != [] && IsSpace(s[0]) then LStrip(s[1..]) else s
  }

  /** `s.rstrip()` */
  function RStrip(s: string): string {
    if s != [] && IsSpace(s[|s| - 1]) then RStrip(s[..|s| - 1]) else s
  }

  /** `s.strip()` */
  function Strip(s: string): string {
    RStrip(LStrip(s))
  }

  /** A page is dropped when `page_text.strip()` is the empty (falsy) string. */
  predicate IsBlank(s: string) {
    Strip(s) == []
  }

  lemma {:induction false} LStripEmptyIff(s: string)
    ensures LStrip(s) == [] <==> forall i :: 0 <= i < |s| ==> IsSpace(s[i])
    ensures LStrip(s) != [] ==> !IsSpace(LStrip(s)[0])
    decreases |s|
  {
    if s != [] && IsSpace(s[0]) {
      LStripEmptyIff(s[1..]);
      assert forall i :: 1 <= i < |s| ==> s[i] == s[1..][i - 1];
    }
  }

  lemma {:induction false} RStripKeepsHead(t: string)
    requires t != [] && !IsSpace(t[0])
    ensures RStrip(t) != []
    decreases |t|
  {
    if IsSpace(t[|t| - 1]) {
      RStripKeepsHead(t[..|t| - 1]);
    }
  }

  /** A page is blank exactly when every one of its characters is white space. */
  lemma BlankIffAllSpace(s: string)
    ensures IsBlank(s) <==> forall i :: 0 <= i < |s| ==> IsSpace(s[i])
  {
    LStripEmptyIff(s);
    if LStrip(s) != [] {
      RStripKeepsHead(LStrip(s));
    }
  }

  /** The texts `extract_data` keeps from a run of pages read without failure:
      the non-blank ones, in page order. */
  function KeepNonBlank(pages: seq<string>): seq<string> {
    if pages == [] then []
    else
      var last := pages[|pages| - 1];
      KeepNonBlank(pages[..|pages| - 1]) + (if IsBlank(last) then [] else [last])
  }

  /** Filtering distributes over concatenation: pages are judged one at a time,
      and their order is kept. */
  lemma {:induction false} KeepNonBlankAppend(a: seq<string>, b: seq<string>)
    ensures KeepNonBlank(a + b) == KeepNonBlank(a) + KeepNonBlank(b)
    decreases |b|
  {
    if b != [] {
      var b' := b[..|b| - 1];
      assert (a + b)[..|a + b| - 1] == a + b';
      KeepNonBlankAppend(a, b');
    } else {
      assert a + b == a;
    }
  }

  /** Exactly the non-blank pages are kept: nothing blank gets in, nothing
      non-blank is lost. */
  lemma {:induction false} KeepNonBlankMembers(pages: seq<string>, x: string)
    ensures x in KeepNonBlank(pages) <==> x in pages && !IsBlank(x)
    decreases |pages|
  {
    if pages != [] {
      var init := pages[..|pages| - 1];
      KeepNonBlankMembers(init, x);
      assert pages == init + [pages[|pages| - 1]];
    }
  }

  /** A document with only blank pages yields nothing, and one with no blank page
      yields all of its pages unchanged. */
  lemma {:induction false} KeepNonBlankExtremes(pages: seq<string>)
    ensures KeepNonBlank(pages) == [] <==> forall i :: 0 <= i < |pages| ==> IsBlank(pages[i])
    ensures (forall i :: 0 <= i < |pages| ==> !IsBlank(pages[i])) ==> KeepNonBlank(pages) == pages
    decreases |pages|
  {
    if pages != [] {
      var init := pages[..|pages| - 1];
      KeepNonBlankExtremes(init);
      assert forall i :: 0 <= i < |init| ==> init[i] == pages[i];
      assert pages == init + [pages[|pages| - 1]];
    }
  }

  /** A PDF as the extractor sees it: one that `fitz.open` refuses (corrupt or
      unsupported), or its page texts together with the index of the first page
      whose `get_text` raises, if any. */
  datatype PdfFile = Corrupt | Pdf(pages: seq<string>, failAt: Option<nat>)

  /** The pages whose text is read before the first failure. */
  function PagesRead(f: PdfFile): (read: seq<string>)
    ensures f.Pdf? ==> read <= f.pages
    ensures f.Pdf? && (f.failAt.None? || f.failAt.value >= |f.pages|) ==> read == f.pages
  {
    match f
    case Corrupt => []
    case Pdf(pages, failAt) =>
      if failAt.Some? && failAt.value < |pages| then pages[..failAt.value] else pages
  }

  /** What `extract_data(path)` returns as `texts`: nothing for a path that does
      not open, otherwise the non-blank pages read before the first failure. */
  function ExtractedTexts(files: map<string, PdfFile>, path: string): seq<string> {
    if path in files then KeepNonBlank(PagesRead(files[path])) else []
  }

  /** A page that fails to read does not discard what was gathered before it:
      the result is a prefix of what a failure-free read would give, and the
      whole of it when no page fails. */
  lemma FailureKeepsPrefix(pages: seq<string>, failAt: Option<nat>)
    ensures KeepNonBlank(PagesRead(Pdf(pages, failAt))) <= KeepNonBlank(pages)
    ensures failAt.None? ==> KeepNonBlank(PagesRead(Pdf(pages, failAt))) == KeepNonBlank(pages)
  {
    var read := PagesRead(Pdf(pages, failAt));
    assert pages == read + pages[|read|..];
    KeepNonBlankAppend(read, pages[|read|..]);
  }

  /** The files on disk and the number of document handles currently open. */
  class FileSystem {
    const files: map<string, PdfFile>
    var openHandles: nat

    constructor (files: map<string, PdfFile>)
      ensures this.files == files && openHandles == 0
    {
      this.files := files;
      openHandles := 0;
    }

    /** `fitz.open(path)`: fails for a missing or corrupt file, otherwise opens
        one more handle on that readable PDF. */
    method Open(path: string) returns (doc: Result<PdfFile>)
      modifies this
      ensures doc.Ok? <==> path in files && files[path].Pdf?
      ensures doc.Ok? ==> doc.value == files[path]
      ensures openHandles == old(openHandles) + (if doc.Ok? then 1 else 0)
    {
      if path in files && files[path].Pdf? {
        doc := Ok(files[path]);
        openHandles := openHandles + 1;
      } else {
        doc := Err("cannot open " + path);
      }
    }

    /** `doc[i].get_text()` */
    method GetText(doc: PdfFile, i: nat) returns (text: Result<string>)
      requires doc.Pdf? && i < |doc.pages|
      ensures text.Err? <==> doc.failAt == Some(i)
      ensures text.Ok? ==> text.value == doc.pages[i]
    {
      if doc.failAt == Some(i) {
        text := Err("cannot read page");
      } else {
        text := Ok(doc.pages[i]);
      }
    }

    /** `doc.close()` */
    method Close(doc: PdfFile)
      requires openHandles > 0
      modifies this
      ensures openHandles == old(openHandles) - 1
    {
      openHandles := openHandles - 1;
    }
  }

  /** `extract_data(file_path)`: never fails; returns the non-blank pages read
      before the first failure, an empty table list, and leaves no handle open. */
  method ExtractData(fs: FileSystem, path: string) returns (texts: seq<string>, tables: seq<string>)
    modifies fs
    ensures texts == ExtractedTexts(fs.files, path)
    ensures tables == []
    ensures fs.openHandles == old(fs.openHandles)
  {
    texts, tables := [], [];
    var handle := fs.Open(path);
    if handle.Ok? {
      var doc := handle.value;
      var pageNum := 0;
      while pageNum < |doc.pages|
        invariant pageNum <= |doc.pages|
        invariant texts == KeepNonBlank(doc.pages[..pageNum])
        invariant forall k :: 0 <= k < pageNum ==> doc.failAt != Some(k)
        invariant fs.openHandles == old(fs.openHandles) + 1
      {
        var pageText := fs.GetText(doc, pageNum);
        if pageText.Err? {
          break;
        }
        var text := pageText.value;
        if !IsBlank(text) {
          texts := texts + [text];
        }
        assert doc.pages[..pageNum + 1][..pageNum] == doc.pages[..pageNum];
        pageNum := pageNum + 1;
      }
      assert texts == KeepNonBlank(PagesRead(fs.files[path])) by {
        if pageNum == |doc.pages| {
          assert doc.pages[..pageNum] == doc.pages;
        }
      }
      fs.Close(doc);
    }
  }
}
