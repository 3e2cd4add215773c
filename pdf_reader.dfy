/**
 * The PDF reader with a per-page cache (`LeerPDF` of `tkinderpdf.py`) and the page and
 * search arithmetic of its window (`PDFReaderApp`). A document is the sequence of the texts
 * PyPDF2's `extract_text()` returns for its pages; opening the file and building the
 * `PdfReader` are reduced to the document they produce, or None when they fail.
 */
module PdfReader {
  import opened Wrappers
  import opened Numerals
  import opened Text
  import opened Words

  /** `_texto_por_pagina`: page number to text, in insertion order (a Python dict). */
  type Cache = seq<(int, string)>

  /** `cache[k]` when the key is present. */
  function Lookup(cache: Cache, k: int): (r: Option<string>)
    ensures r.None? <==> forall i :: 0 <= i < |cache| ==> cache[i].0 != k
  {
    if cache == [] then None
    else if cache[0].0 == k then Some(cache[0].1)
    else Lookup(cache[1..], k)
  }

  /** Dictionary keys are distinct. */
  predicate DistinctKeys(cache: Cache) {
    forall i, j :: 0 <= i < j < |cache| ==> cache[i].0 != cache[j].0
  }

  /** The value stored under each key of a dictionary is what a lookup finds. */
  lemma {:induction false} LookupAt(cache: Cache, i: nat)
    requires DistinctKeys(cache) && i < |cache|
    ensures Lookup(cache, cache[i].0) == Some(cache[i].1)
    decreases i
  {
    if i > 0 {
      assert cache[0].0 != cache[i].0;
      assert cache[1..][i - 1] == cache[i];
      LookupAt(cache[1..], i - 1);
    }
  }

  /** The dictionary `extraer_texto` builds: page `i + 1` maps to its text and a newline. */
  function PageEntries(pages: seq<string>): Cache {
    seq(|pages|, i requires 0 <= i < |pages| => (i + 1, pages[i] + "\n"))
  }

  lemma PageEntriesDistinct(pages: seq<string>)
    ensures DistinctKeys(PageEntries(pages))
  {
  }

  /** After extraction, page `n` of the cache holds the text the page contributed. */
  lemma ExtractedPageCached(pages: seq<string>, n: int)
    requires 1 <= n <= |pages|
    ensures Lookup(PageEntries(pages), n) == Some(pages[n - 1] + "\n")
  {
    LookupAt(PageEntries(pages), n - 1);
  }

  /**
   * The extracted text is the cached pages laid end to end: page `n`'s cache entry sits at
   * the offset of page `n` in the text.
   */
  lemma ExtractedTextHoldsEachPage(pages: seq<string>, n: int)
    requires 1 <= n <= |pages|
    ensures Offset(pages, n - 1) + |pages[n - 1]| + 1 <= |Joined(pages)|
    ensures Lookup(PageEntries(pages), n)
            == Some(Joined(pages)[Offset(pages, n - 1) .. Offset(pages, n - 1) + |pages[n - 1]| + 1])
  {
    ExtractedPageCached(pages, n);
    LineAtOffset(pages, n - 1);
  }

  /** The message `obtener_texto_pagina` returns for a page outside the document. */
  function InvalidPage(total: int): string {
    "Número de página inválido. El documento tiene " + IntToString(total) + " páginas."
  }

  /**
   * `obtener_texto_pagina(n)` on a document with pages `pages`: the text and the new cache.
   * A cached page is returned as cached; a page not yet cached is extracted, without a
   * trailing newline, and added to the cache; a page outside 1..total gets the message.
   */
  function FetchPage(pages: seq<string>, cache: Cache, n: int): (string, Cache) {
    if 1 <= n <= |pages| then
      match Lookup(cache, n)
      case Some(t) => (t, cache)
      case None => (pages[n - 1], cache + [(n, pages[n - 1])])
    else (InvalidPage(|pages|), cache)
  }

  /** Adding a key that is absent keeps the keys distinct and makes the key found. */
  lemma LookupAppendNew(cache: Cache, k: int, v: string)
    requires DistinctKeys(cache) && Lookup(cache, k).None?
    ensures DistinctKeys(cache + [(k, v)])
    ensures Lookup(cache + [(k, v)], k) == Some(v)
  {
    LookupAt(cache + [(k, v)], |cache|);
  }

  /**
   * Fetching a page keeps the cache a dictionary, never forgets an entry, and asking again
   * returns the same text without touching the cache.
   */
  lemma FetchPageRepeats(pages: seq<string>, cache: Cache, n: int)
    requires DistinctKeys(cache)
    ensures DistinctKeys(FetchPage(pages, cache, n).1)
    ensures cache <= FetchPage(pages, cache, n).1
    ensures var (t, c) := FetchPage(pages, cache, n); FetchPage(pages, c, n) == (t, c)
  {
    if 1 <= n <= |pages| && Lookup(cache, n).None? {
      LookupAppendNew(cache, n, pages[n - 1]);
    }
  }

  /** A page outside the document leaves the cache alone and gets the message naming the count. */
  lemma FetchInvalidPage(pages: seq<string>, cache: Cache, n: int)
    requires n < 1 || n > |pages|
    ensures FetchPage(pages, cache, n) == (InvalidPage(|pages|), cache)
  {
  }

  /**
   * The text of a page depends on the history: after `extraer_texto` it carries the
   * newline the extraction added, on a fresh cache it does not.
   */
  lemma FetchAfterExtraction(pages: seq<string>, n: int)
    requires 1 <= n <= |pages|
    ensures FetchPage(pages, PageEntries(pages), n) == (pages[n - 1] + "\n", PageEntries(pages))
    ensures FetchPage(pages, [], n) == (pages[n - 1], [(n, pages[n - 1])])
  {
    ExtractedPageCached(pages, n);
    assert [] + [(n, pages[n - 1])] == [(n, pages[n - 1])];
  }

  /** Whether the search counts a cached page as a hit. */
  predicate Hit(entry: (int, string), query: string, caseSensitive: bool) {
    Contains(Folded(entry.1, caseSensitive), Folded(query, caseSensitive))
  }

  /** The cached pages whose text contains the query, in cache order. */
  function Matching(cache: Cache, query: string, caseSensitive: bool): Cache {
    if cache == [] then []
    else
      var last := cache[|cache| - 1];
      Matching(cache[..|cache| - 1], query, caseSensitive)
      + (if Hit(last, query, caseSensitive) then [last] else [])
  }

  /** The search finds exactly the cached pages that contain the query. */
  lemma {:induction false} MatchingIff(cache: Cache, query: string, caseSensitive: bool, e: (int, string))
    ensures e in Matching(cache, query, caseSensitive) <==> e in cache && Hit(e, query, caseSensitive)
    decreases |cache|
  {
    if cache != [] {
      var init := cache[..|cache| - 1];
      MatchingIff(init, query, caseSensitive, e);
      assert cache == init + [cache[|cache| - 1]];
    }
  }

  /** The search keeps the cache's order: searching a longer cache extends the results. */
  lemma {:induction false} MatchingAppend(a: Cache, b: Cache, query: string, caseSensitive: bool)
    ensures Matching(a + b, query, caseSensitive)
            == Matching(a, query, caseSensitive) + Matching(b, query, caseSensitive)
    decreases |b|
  {
    if b == [] {
      assert a + b == a;
    } else {
      var init := b[..|b| - 1];
      assert (a + b)[..|a + b| - 1] == a + init;
      assert (a + b)[|a + b| - 1] == b[|b| - 1];
      MatchingAppend(a, init, query, caseSensitive);
    }
  }

  /** A case-sensitive hit is also a case-insensitive hit. */
  lemma CaseSensitiveHitIsHit(entry: (int, string), query: string)
    requires Hit(entry, query, true)
    ensures Hit(entry, query, false)
  {
    ContainsLower(entry.1, query);
  }

  /** `LeerPDF`: the document, the page count, the extracted text and the page cache. */
  class Reader {
    /** `_lector`, reduced to the texts of its pages; None before a document is loaded. */
    var document: Option<seq<string>>
    /** `_paginas_totales`. */
    var total: int
    /** `_texto_extraido`. */
    var text: string
    /** `_texto_por_pagina`. */
    var cache: Cache

    ghost predicate Valid()
      reads this
    {
      DistinctKeys(cache)
      && total == (if document.Some? then |document.value| else 0)
    }

    /** The pages of the loaded document, none before one is loaded. */
    function Pages(): seq<string>
      reads this
    {
      if document.Some? then document.value else []
    }

    /** The text `resumen_simple` and `buscar_texto` see once they have extracted if needed. */
    function Prepared(): string
      reads this
    {
      if text == "" && document.Some? then Joined(document.value) else text
    }

    /** The cache they see. */
    function PreparedCache(): Cache
      reads this
    {
      if text == "" && document.Some? then PageEntries(document.value) else cache
    }

    constructor ()
      ensures Valid()
      ensures document.None? && total == 0 && text == "" && cache == []
    {
      document := None;
      total := 0;
      text := "";
      cache := [];
    }

    /**
     * `abrir_pdf`: when the file opens and PyPDF2 reads it, the document and its page count
     * are replaced; the extracted text and the cache are left as they were.
     */
    method Open(loaded: Option<seq<string>>) returns (ok: bool)
      requires Valid()
      modifies this
      ensures Valid()
      ensures ok <==> loaded.Some?
      ensures document == (if loaded.Some? then loaded else old(document))
      ensures text == old(text) && cache == old(cache)
    {
      if loaded.Some? {
        document := loaded;
        total := |loaded.value|;
        ok := true;
      } else {
        ok := false;
      }
    }

    /** `get_total_paginas`. */
    function TotalPages(): (n: int)
      requires Valid()
      reads this
      ensures n == |Pages()| && n >= 0
    {
      total
    }

    /**
     * `extraer_texto`: without a document, "" and nothing changes; otherwise the text is
     * rebuilt as every page followed by a newline, in page order, and the cache maps each
     * page number to that same page text.
     */
    method ExtractText() returns (r: string)
      requires Valid()
      modifies this
      ensures Valid()
      ensures document == old(document) && total == old(total)
      ensures old(document).None? ==> r == "" && text == old(text) && cache == old(cache)
      ensures old(document).Some? ==>
                text == Joined(document.value) && cache == PageEntries(document.value) && r == text
    {
      if document.None? {
        return "";
      }
      var pages := document.value;
      text := "";
      cache := [];
      var i := 0;
      while i < |pages|
        invariant 0 <= i <= |pages|
        invariant document == old(document) && total == old(total)
        invariant text == Joined(pages[..i])
        invariant cache == PageEntries(pages[..i])
      {
        var pageText := pages[i] + "\n";
        cache := cache + [(i + 1, pageText)];
        text := text + pageText;
        assert pages[..i + 1] == pages[..i] + [pages[i]];
        JoinedSnoc(pages[..i], pages[i]);
        assert cache == PageEntries(pages[..i + 1]);
        i := i + 1;
      }
      assert pages[..i] == pages;
      PageEntriesDistinct(pages);
      r := text;
    }

    /**
     * `obtener_texto_pagina(n)`: the cached text of a page of the document, extracting and
     * caching it on a miss, or the invalid-page message; see `FetchPage`.
     */
    method PageText(n: int) returns (r: string)
      requires Valid()
      modifies this
      ensures Valid()
      ensures document == old(document) && total == old(total) && text == old(text)
      ensures (r, cache) == FetchPage(old(Pages()), old(cache), n)
    {
      FetchPageRepeats(Pages(), cache, n);
      if 1 <= n <= total {
        var hit := Lookup(cache, n);
        if hit.Some? {
          r := hit.value;
        } else {
          r := document.value[n - 1];
          cache := cache + [(n, r)];
        }
      } else {
        r := InvalidPage(total);
      }
    }

    /**
     * `resumen_simple(k)`: extract first when nothing has been extracted, then the first `k`
     * words followed by "..." when there are more.
     */
    method SimpleSummary(k: int) returns (r: string)
      requires Valid()
      modifies this
      ensures Valid()
      ensures document == old(document) && total == old(total)
      ensures text == old(Prepared()) && cache == old(PreparedCache())
      ensures r == Summary(text, k)
    {
      if text == "" {
        var _ := ExtractText();
      }
      r := Summary(text, k);
    }

    /**
     * `buscar_texto(q, cs)`: extract first when nothing has been extracted, then the cached
     * pages whose text contains the query, in cache order, ignoring case unless `cs`.
     */
    method Search(query: string, caseSensitive: bool) returns (results: Cache)
      requires Valid()
      modifies this
      ensures Valid()
      ensures document == old(document) && total == old(total)
      ensures text == old(Prepared()) && cache == old(PreparedCache())
      ensures results == Matching(cache, query, caseSensitive)
    {
      if text == "" {
        var _ := ExtractText();
      }
      var entries := cache;
      results := [];
      var q := query;
      var i := 0;
      while i < |entries|
        invariant 0 <= i <= |entries|
        invariant results == Matching(entries[..i], query, caseSensitive)
        invariant q == if i > 0 && !caseSensitive then Lower(query) else query
        modifies {}
      {
        var page := entries[i];
        var compared: string;
        if !caseSensitive {
          // the query is lowered again on every page
          LowerIdempotent(query);
          q := Lower(q);
          compared := Lower(page.1);
        } else {
          compared := page.1;
        }
        var hit := Contains(compared, q);
        assert hit == Hit(page, query, caseSensitive);
        if hit {
          results := results + [page];
        }
        assert entries[..i + 1][..i] == entries[..i];
        i := i + 1;
      }
      assert entries[..i] == entries;
    }
  }

  // ---------------------------------------------------------------- the reader window

  /** `mostrar_pagina`'s correction of the requested page number. */
  function ClampPage(n: int, total: int): int {
    if n < 1 then 1 else if n > total then total else n
  }

  /** On a non-empty document the page shown is in range, and a page in range is kept. */
  lemma ClampPageInRange(n: int, total: int)
    requires total >= 1
    ensures 1 <= ClampPage(n, total) <= total
    ensures 1 <= n <= total ==> ClampPage(n, total) == n
    ensures ClampPage(ClampPage(n, total), total) == ClampPage(n, total)
  {
  }

  /**
   * On an empty document every page from 1 up is corrected to 0, while a page below 1 is
   * corrected to 1; neither has text, so every request fetches the invalid-page message.
   */
  lemma ClampOnEmptyDocument(n: int, cache: Cache)
    ensures n >= 1 ==> ClampPage(n, 0) == 0
    ensures n < 1 ==> ClampPage(n, 0) == 1
    ensures FetchPage([], cache, ClampPage(n, 0)) == (InvalidPage(0), cache)
  {
  }

  function Max(a: int, b: int): int { if a > b then a else b }
  function Min(a: int, b: int): int { if a < b then a else b }

  /** Python's `s[a:b]` for non-negative bounds. */
  function PySlice(s: string, a: int, b: int): string
    requires a >= 0 && b >= 0
  {
    var lo := Min(a, |s|);
    var hi := Min(b, |s|);
    if lo < hi then s[lo..hi] else ""
  }

  /**
   * The fragment `buscar_en_pdf` lists for a hit: up to 30 characters either side of the
   * first case-insensitive occurrence, prefixed by "..." when it does not start the page and
   * always followed by "...".
   */
  function Fragment(content: string, query: string): string {
    FragmentAt(content, Find(Lower(content), Lower(query)), |query|)
  }

  /** The fragment around index `index` for a query of length `length`. */
  function FragmentAt(content: string, index: int, length: nat): string
    requires index >= -1
  {
    var start := Max(0, index - 30);
    var end := Min(|content|, index + length + 30);
    var middle := PySlice(content, start, end);
    if start > 0 then "..." + middle + "..." else middle + "..."
  }

  /**
   * For a page that contains the query (ignoring case, as every search hit does), the
   * fragment shows the first match, is at most 66 characters longer than the query, ends in
   * "...", and starts with the page itself when the match is within its first 30 characters
   * and with "..." otherwise.
   */
  lemma FragmentShowsMatch(content: string, query: string)
    requires Contains(Lower(content), Lower(query))
    ensures var f := Fragment(content, query);
            && Contains(Lower(f), Lower(query))
            && |f| <= |query| + 66
            && f[|f| - 3..] == "..."
            && (Find(Lower(content), Lower(query)) <= 30 ==> f[..|f| - 3] <= content)
            && (Find(Lower(content), Lower(query)) > 30 ==> f[..3] == "...")
  {
    var index := Find(Lower(content), Lower(query));
    FragmentAtShowsMatch(content, query, index);
  }

  /** The same for the fragment around any match. */
  lemma FragmentAtShowsMatch(content: string, query: string, index: int)
    requires OccursAt(Lower(content), Lower(query), index)
    ensures var f := FragmentAt(content, index, |query|);
            && Contains(Lower(f), Lower(query))
            && |f| <= |query| + 66
            && f[|f| - 3..] == "..."
            && (index <= 30 ==> f[..|f| - 3] <= content)
            && (index > 30 ==> f[..3] == "...")
  {
    var start := Max(0, index - 30);
    var end := Min(|content|, index + |query| + 30);
    var pre := if start > 0 then "..." else "";
    var f := pre + content[start..end] + "...";
    assert PySlice(content, start, end) == content[start..end];
    assert f == FragmentAt(content, index, |query|);
    MatchInWindow(content, query, index, start, end, pre);
    var at := |pre| + index - start;
    assert 0 <= at <= |Lower(f)| && OccursAt(Lower(f), Lower(query), at);
    assert f[..|f| - 3] == pre + content[start..end];
  }

  /** A match inside `content[start..end]` is still a match in the fragment built around it. */
  lemma MatchInWindow(content: string, query: string, index: int, start: int, end: int, pre: string)
    requires OccursAt(Lower(content), Lower(query), index)
    requires 0 <= start <= index && index + |query| <= end <= |content|
    ensures OccursAt(Lower(pre + content[start..end] + "..."), Lower(query), |pre| + index - start)
  {
    var f := pre + content[start..end] + "...";
    var at := |pre| + index - start;
    forall k | 0 <= k < |query|
      ensures Lower(f)[at + k] == Lower(query)[k]
    {
      assert f[at + k] == content[index + k];
      assert Lower(content)[index..index + |query|][k] == Lower(query)[k];
    }
    assert Lower(f)[at..at + |query|] == Lower(query);
  }

  /** Every search hit has a fragment showing the query. */
  lemma HitHasFragment(entry: (int, string), query: string, caseSensitive: bool)
    requires Hit(entry, query, caseSensitive)
    ensures Contains(Lower(Fragment(entry.1, query)), Lower(query))
  {
    if caseSensitive {
      CaseSensitiveHitIsHit(entry, query);
    }
    FragmentShowsMatch(entry.1, query);
  }

  /** `PDFReaderApp`: its reader and the page number and text it shows. */
  class ReaderApp {
    /** `lector_pdf`. */
    var reader: Reader
    /** `pagina_actual`. */
    var page: int
    /** The contents of `texto_pdf`. */
    var shown: string

    ghost predicate Valid()
      reads this, reader
    {
      reader.Valid()
    }

    constructor ()
      ensures Valid() && fresh(reader)
      ensures reader.document.None? && reader.cache == [] && page == 1 && shown == ""
    {
      reader := new Reader();
      page := 1;
      shown := "";
    }

    /**
     * `mostrar_pagina(n)`: the page number is corrected into 1..total, shown, and its text
     * fetched through the reader's cache.
     */
    method ShowPage(n: int)
      requires Valid()
      modifies this, reader
      ensures Valid() && reader == old(reader)
      ensures page == ClampPage(n, old(reader.total))
      ensures (shown, reader.cache) == FetchPage(old(reader.Pages()), old(reader.cache), page)
      ensures reader.document == old(reader.document) && reader.text == old(reader.text)
    {
      var p := n;
      if p < 1 {
        p := 1;
      } else if p > reader.TotalPages() {
        p := reader.TotalPages();
      }
      page := p;
      shown := reader.PageText(p);
    }

    /** `pagina_anterior`. */
    method PreviousPage()
      requires Valid()
      modifies this, reader
      ensures Valid() && reader == old(reader)
      ensures page == ClampPage(old(page) - 1, old(reader.total))
      ensures (shown, reader.cache) == FetchPage(old(reader.Pages()), old(reader.cache), page)
      ensures reader.document == old(reader.document) && reader.text == old(reader.text)
    {
      ShowPage(page - 1);
    }

    /** `pagina_siguiente`. */
    method NextPage()
      requires Valid()
      modifies this, reader
      ensures Valid() && reader == old(reader)
      ensures page == ClampPage(old(page) + 1, old(reader.total))
      ensures (shown, reader.cache) == FetchPage(old(reader.Pages()), old(reader.cache), page)
      ensures reader.document == old(reader.document) && reader.text == old(reader.text)
    {
      ShowPage(page + 1);
    }

    /**
     * `abrir_pdf` of the window: when the dialog returns a file (`chosen`), a fresh reader
     * opens the document `loaded`; on success the page number is set to 1 when there are
     * pages and page 1 is shown. A cancelled dialog keeps the old reader, and a failed open
     * keeps the page and the text shown and leaves the fresh reader's cache empty.
     */
    method OpenDocument(chosen: bool, loaded: Option<seq<string>>)
      requires Valid()
      modifies this
      ensures Valid()
      ensures !chosen ==> reader == old(reader) && page == old(page) && shown == old(shown)
      ensures chosen ==> fresh(reader) && reader.document == loaded && reader.text == ""
      ensures chosen && loaded.None? ==> page == old(page) && shown == old(shown) && reader.cache == []
      ensures chosen && loaded.Some? ==>
                page == ClampPage(1, |loaded.value|)
                && (shown, reader.cache) == FetchPage(loaded.value, [], page)
    {
      if !chosen {
        return;
      }
      reader := new Reader();
      var ok := reader.Open(loaded);
      if ok {
        if reader.TotalPages() > 0 {
          page := 1;
        }
        ShowPage(1);
      }
    }
  }
}
