/**
 * The page viewer of `tkinder2pdf.py` (`PDFReaderApp` over PyMuPDF): the open document,
 * its page count, the current page, the text and the label shown, and the search that
 * counts the matches in the shown text. A document is the sequence of the texts
 * `page.get_text()` returns for its pages; the file dialog and `fitz.open` are reduced to
 * the document they produce, or None when the dialog is cancelled or opening fails.
 */
module PdfViewer {
  import opened Wrappers
  import opened Numerals
  import opened Text

  /** The page after `next_page`: one further when a document is open and it is not the last. */
  function NextIndex(current: int, total: int, open: bool): int {
    if open && current < total - 1 then current + 1 else current
  }

  /** The page after `prev_page`: one back when a document is open and it is not the first. */
  function PrevIndex(current: int, open: bool): int {
    if open && current > 0 then current - 1 else current
  }

  /** Next and previous keep the current page inside the document. */
  lemma NavigationStaysInRange(current: int, total: int)
    requires 0 <= current < total
    ensures 0 <= NextIndex(current, total, true) < total
    ensures 0 <= PrevIndex(current, true) < total
  {
  }

  /**
   * Away from the last page, "previous" undoes "next"; away from the first, "next" undoes
   * "previous"; at the ends the button does nothing, as it does without a document.
   */
  lemma NavigationUndoes(current: int, total: int)
    requires 0 <= current < total
    ensures current < total - 1 ==> PrevIndex(NextIndex(current, total, true), true) == current
    ensures current > 0 ==> NextIndex(PrevIndex(current, true), total, true) == current
    ensures NextIndex(total - 1, total, true) == total - 1
    ensures PrevIndex(0, true) == 0
    ensures NextIndex(current, total, false) == current && PrevIndex(current, false) == current
  {
  }

  /** The label `show_page` writes: "current+1 / total". */
  function PageLabel(current: int, total: int): string {
    IntToString(current + 1) + " / " + IntToString(total)
  }

  /** The label names a page from 1 to the page count when the page is in range. */
  lemma PageLabelNumbers(current: int, total: int)
    requires 0 <= current < total
    ensures ParseInt(PageLabel(current, total)[..|IntToString(current + 1)|]) == Some(current + 1)
    ensures 1 <= current + 1 <= total
  {
    IntToStringRoundTrip(current + 1);
    var a := IntToString(current + 1);
    assert PageLabel(current, total)[..|a|] == a;
  }

  /** The number of matches the search counts: non-overlapping, left to right. */
  function MatchCount(shown: string, query: string, caseSensitive: bool): nat
    requires query != ""
  {
    OccurrencesFrom(Folded(shown, caseSensitive), Folded(query, caseSensitive), 0)
  }

  /**
   * The search reports "not found" exactly when the query does not occur in the shown text,
   * and the matches it counts fit side by side in that text.
   */
  lemma MatchCountMeaning(shown: string, query: string, caseSensitive: bool)
    requires query != ""
    ensures MatchCount(shown, query, caseSensitive) == 0
            <==> !Contains(Folded(shown, caseSensitive), Folded(query, caseSensitive))
    ensures MatchCount(shown, query, caseSensitive) * |query| <= |shown|
  {
    var s, q := Folded(shown, caseSensitive), Folded(query, caseSensitive);
    OccurrencesZeroIffAbsent(s, q, 0);
    OccurrencesFit(s, q, 0);
    if MatchCount(shown, query, caseSensitive) != 0 {
      var j :| 0 <= j && OccursAt(s, q, j);
      assert j <= |s|;
    }
  }

  /**
   * The `search` loop of `search_text`: look for `pattern` from `start`, count a match and
   * resume right after it, until no match is left.
   */
  method CountMatches(content: string, pattern: string) returns (count: nat)
    requires |pattern| > 0
    ensures count == OccurrencesFrom(content, pattern, 0)
  {
    count := 0;
    var start := 0;
    while true
      invariant 0 <= start <= |content|
      invariant count + OccurrencesFrom(content, pattern, start) == OccurrencesFrom(content, pattern, 0)
      decreases |content| - start
    {
      var found := FindFrom(content, pattern, start);
      if found < 0 {
        break;
      }
      start := found + |pattern|;
      count := count + 1;
    }
  }

  /** `PDFReaderApp` of `tkinder2pdf.py`. */
  class Viewer {
    /** `self.doc`, reduced to the texts of its pages. */
    var document: Option<seq<string>>
    /** `total_pages`. */
    var totalPages: int
    /** `current_page`, counted from 0. */
    var currentPage: int
    /** The contents of `text_area`. */
    var shown: string
    /** The text of `page_label`. */
    var pageLabel: string

    /** A PyMuPDF document is true when it has pages. */
    predicate HasDocument()
      reads this
    {
      document.Some? && |document.value| > 0
    }

    ghost predicate Valid()
      reads this
    {
      totalPages == (if document.Some? then |document.value| else 0)
      && (HasDocument() ==> 0 <= currentPage < totalPages)
    }

    constructor ()
      ensures Valid()
      ensures document.None? && totalPages == 0 && currentPage == 0
      ensures shown == "" && pageLabel == "0 / 0"
    {
      document := None;
      totalPages := 0;
      currentPage := 0;
      shown := "";
      pageLabel := "0 / 0";
    }

    /**
     * `show_page`: nothing without a document or out of range; otherwise the current page's
     * text and the label "current+1 / total".
     */
    method ShowPage()
      requires Valid()
      modifies this
      ensures Valid()
      ensures document == old(document) && totalPages == old(totalPages) && currentPage == old(currentPage)
      ensures HasDocument() ==>
                shown == document.value[currentPage] && pageLabel == PageLabel(currentPage, totalPages)
      ensures !HasDocument() ==> shown == old(shown) && pageLabel == old(pageLabel)
    {
      if !HasDocument() || currentPage < 0 || currentPage >= totalPages {
        return;
      }
      shown := document.value[currentPage];
      pageLabel := PageLabel(currentPage, totalPages);
    }

    /**
     * `load_pdf`: a document that opens becomes current, with its page count, at page 0,
     * which is shown; a cancelled dialog or a failed open changes nothing.
     */
    method LoadPdf(loaded: Option<seq<string>>)
      requires Valid()
      modifies this
      ensures Valid()
      ensures loaded.None? ==> document == old(document) && totalPages == old(totalPages)
                               && currentPage == old(currentPage)
                               && shown == old(shown) && pageLabel == old(pageLabel)
      ensures loaded.Some? ==> document == loaded && totalPages == |loaded.value| && currentPage == 0
      ensures loaded.Some? && |loaded.value| > 0 ==>
                shown == loaded.value[0] && pageLabel == PageLabel(0, |loaded.value|)
      ensures loaded.Some? && |loaded.value| == 0 ==> shown == old(shown) && pageLabel == old(pageLabel)
    {
      if loaded.None? {
        return;
      }
      document := loaded;
      totalPages := |loaded.value|;
      currentPage := 0;
      ShowPage();
    }

    /** `next_page`. */
    method NextPage()
      requires Valid()
      modifies this
      ensures Valid()
      ensures document == old(document) && totalPages == old(totalPages)
      ensures currentPage == NextIndex(old(currentPage), totalPages, HasDocument())
      ensures currentPage != old(currentPage) ==>
                shown == document.value[currentPage] && pageLabel == PageLabel(currentPage, totalPages)
      ensures currentPage == old(currentPage) ==> shown == old(shown) && pageLabel == old(pageLabel)
    {
      if HasDocument() && currentPage < totalPages - 1 {
        currentPage := currentPage + 1;
        ShowPage();
      }
    }

    /** `prev_page`. */
    method PrevPage()
      requires Valid()
      modifies this
      ensures Valid()
      ensures document == old(document) && totalPages == old(totalPages)
      ensures currentPage == PrevIndex(old(currentPage), HasDocument())
      ensures currentPage != old(currentPage) ==>
                shown == document.value[currentPage] && pageLabel == PageLabel(currentPage, totalPages)
      ensures currentPage == old(currentPage) ==> shown == old(shown) && pageLabel == old(pageLabel)
    {
      if HasDocument() && currentPage > 0 {
        currentPage := currentPage - 1;
        ShowPage();
      }
    }

    /**
     * `search_text`: nothing for an empty query; otherwise the shown text is searched from
     * its start, each search resuming where the last match ended, ignoring case unless
     * asked not to, and "not found" is reported when nothing matched.
     */
    method SearchText(query: string, caseSensitive: bool) returns (count: nat, notFound: bool)
      ensures query == "" ==> count == 0 && !notFound
      ensures query != "" ==> count == MatchCount(shown, query, caseSensitive)
      ensures notFound <==> query != "" && count == 0
    {
      if query == "" {
        return 0, false;
      }
      var content := Folded(shown, caseSensitive);
      var pattern := Folded(query, caseSensitive);
      assert |pattern| == |query|;
      count := CountMatches(content, pattern);
      notFound := count == 0;
    }
  }
}
