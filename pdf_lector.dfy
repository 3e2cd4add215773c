/**
 * The simpler PDF reader of `tkindlectorpdf.py` (`Archivos` and `LeerPDF`): a file name, a
 * document read when the object is built, and an extracted text that only ever grows. A
 * document is the sequence of the texts PyPDF2's `extract_text()` returns for its pages.
 */
module PdfLector {
  import opened Wrappers
  import opened Text
  import opened Words

  /** The pages whose text is not empty, in page order. */
  function NonEmptyPages(pages: seq<string>): seq<string> {
    if pages == [] then []
    else
      var last := pages[|pages| - 1];
      NonEmptyPages(pages[..|pages| - 1]) + (if last != "" then [last] else [])
  }

  /** How many pages have no text. */
  function BlankPages(pages: seq<string>): nat {
    if pages == [] then 0
    else BlankPages(pages[..|pages| - 1]) + (if pages[|pages| - 1] == "" then 1 else 0)
  }

  /** Extraction keeps exactly the pages with text. */
  lemma {:induction false} NonEmptyPagesIff(pages: seq<string>, t: string)
    ensures t in NonEmptyPages(pages) <==> t in pages && t != ""
    decreases |pages|
  {
    if pages != [] {
      NonEmptyPagesIff(pages[..|pages| - 1], t);
      assert pages == pages[..|pages| - 1] + [pages[|pages| - 1]];
    }
  }

  /**
   * Each blank page is one newline fewer in the text: the text of the pages with text is
   * shorter than every page followed by a newline by exactly the number of blank pages.
   */
  lemma {:induction false} ExtractionSkipsBlankPages(pages: seq<string>)
    ensures |Joined(NonEmptyPages(pages))| + BlankPages(pages) == |Joined(pages)|
    decreases |pages|
  {
    if pages != [] {
      var init, last := pages[..|pages| - 1], pages[|pages| - 1];
      ExtractionSkipsBlankPages(init);
      assert pages == init + [last];
      JoinedSnoc(init, last);
      if last != "" {
        JoinedSnoc(NonEmptyPages(init), last);
      } else {
        assert NonEmptyPages(pages) == NonEmptyPages(init) + [];
        assert NonEmptyPages(init) + [] == NonEmptyPages(init);
      }
    }
  }

  /** Without blank pages, extraction is every page followed by a newline. */
  lemma {:induction false} NoBlankPagesKeepsAll(pages: seq<string>)
    requires forall i :: 0 <= i < |pages| ==> pages[i] != ""
    ensures NonEmptyPages(pages) == pages
    decreases |pages|
  {
    if pages != [] {
      NoBlankPagesKeepsAll(pages[..|pages| - 1]);
      assert pages == pages[..|pages| - 1] + [pages[|pages| - 1]];
    }
  }

  /** One more page extends the kept pages by that page when it has text. */
  lemma NonEmptyPagesSnoc(pages: seq<string>, i: nat)
    requires i < |pages|
    ensures NonEmptyPages(pages[..i + 1])
            == NonEmptyPages(pages[..i]) + (if pages[i] != "" then [pages[i]] else [])
  {
    assert pages[..i + 1][..i] == pages[..i];
  }

  /** `LeerPDF` with the file name of `Archivos`. */
  class Lector {
    /** `_nombredel_archivo`. */
    var fileName: string
    /** `_lector`, reduced to the texts of its pages; None when the file did not open. */
    var document: Option<seq<string>>
    /** `_texto_extraido`. */
    var text: string

    /**
     * `LeerPDF(nombre)`: keeps the name, then `abrir_pdf` loads the document when the file
     * opens, and the extracted text starts empty.
     */
    constructor (name: string, loaded: Option<seq<string>>)
      ensures fileName == name && document == loaded && text == ""
    {
      fileName := name;
      document := loaded;
      text := "";
    }

    /** `obtener_nombre_archivo`. */
    method FileName() returns (name: string)
      ensures name == fileName
    {
      name := fileName;
    }

    /** `establecer_nombre_archivo`: only the name changes. */
    method SetFileName(name: string)
      modifies this
      ensures fileName == name
      ensures document == old(document) && text == old(text)
    {
      fileName := name;
    }

    /**
     * `extraer_texto`: without a document, "" and nothing changes; otherwise every page with
     * text is appended, followed by a newline, to what was extracted before, which is never
     * cleared.
     */
    method ExtractText() returns (r: string)
      modifies this
      ensures fileName == old(fileName) && document == old(document)
      ensures document.None? ==> r == "" && text == old(text)
      ensures document.Some? ==> text == old(text) + Joined(NonEmptyPages(document.value)) && r == text
    {
      if document.None? {
        return "";
      }
      var pages := document.value;
      ghost var before := text;
      var i := 0;
      while i < |pages|
        invariant 0 <= i <= |pages|
        invariant fileName == old(fileName) && document == old(document)
        invariant text == before + Joined(NonEmptyPages(pages[..i]))
      {
        var page := pages[i];
        ghost var kept := NonEmptyPages(pages[..i]);
        NonEmptyPagesSnoc(pages, i);
        if page != "" {
          JoinedSnoc(kept, page);
          text := text + page + "\n";
          assert text == before + (Joined(kept) + page + "\n");
        } else {
          assert kept + [] == kept;
        }
        i := i + 1;
      }
      assert pages[..i] == pages;
      r := text;
    }

    /**
     * `resumen_simple(k)`: extract first when nothing has been extracted, then the first `k`
     * words followed by "..." when there are more.
     */
    method SimpleSummary(k: int) returns (r: string)
      modifies this
      ensures fileName == old(fileName) && document == old(document)
      ensures text == if old(text) == "" && document.Some? then Joined(NonEmptyPages(document.value))
                      else old(text)
      ensures r == Summary(text, k)
    {
      if text == "" {
        var _ := ExtractText();
      }
      r := Summary(text, k);
    }
  }

  /**
   * The extracted text is never reset: extracting a document twice holds its pages twice,
   * so the words the summary sees are doubled.
   */
  lemma ExtractTwiceDoubles(pages: seq<string>)
    ensures var once := Joined(NonEmptyPages(pages));
            Split(once + once) == Split(once) + Split(once)
  {
    var lines := NonEmptyPages(pages);
    var once := Joined(lines);
    if lines != [] {
      JoinedSnoc(lines[..|lines| - 1], lines[|lines| - 1]);
      assert lines == lines[..|lines| - 1] + [lines[|lines| - 1]];
      assert once[|once| - 1] == '\n';
    }
    SplitAfterSpace(once, once);
  }
}
