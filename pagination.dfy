/**
 * Pagination of long listings for low-bandwidth links: page arithmetic with
 * clamping, compact page indicators and navigation prompts, and the helpers that
 * put a header, one page of formatted items and the prompt together.
 */
module Pagination {
  import opened Wrappers
  import opened Text

  /** What `get_page_info` reports about one page. */
  datatype PageInfo = PageInfo(
    pageNum: int,
    totalPages: int,
    pageSize: int,
    startIndex: int,
    endIndex: int,
    itemCount: int,
    totalItems: int,
    hasNext: bool,
    hasPrev: bool)

  function Min(a: int, b: int): int { if a <= b then a else b }
  function Max(a: int, b: int): int { if a >= b then a else b }

  /** `math.ceil(n / size)` for a positive size: the fewest pages of `size` items that hold `n`. */
  function CeilDiv(n: nat, size: int): (t: nat)
    requires size > 0
    ensures t * size >= n
    ensures t > 0 ==> (t - 1) * size < n
    ensures t == 0 <==> n == 0
  {
    var q := (n + size - 1) / size;
    var r := (n + size - 1) % size;
    assert n + size - 1 == q * size + r && 0 <= r < size;
    assert (q - 1) * size == q * size - size;
    q
  }

  /** A list split into pages of `pageSize` items; the fields are fixed once built. */
  datatype Paginator<T> = Paginator(items: seq<T>, pageSize: int) {

    function TotalItems(): nat {
      |items|
    }

    /** `total_pages`: ceil(n / size) for a positive size (0 for an empty list), else 1. */
    function TotalPages(): (t: int)
      ensures t >= 0
      ensures pageSize <= 0 ==> t == 1
      ensures pageSize > 0 ==> t * pageSize >= |items| && (t > 0 ==> (t - 1) * pageSize < |items|)
      ensures pageSize > 0 ==> (t == 0 <==> |items| == 0)
    {
      if pageSize > 0 then CeilDiv(|items|, pageSize) else 1
    }

    /** The page `get_page` shows: below 1 becomes 1, above the last becomes the last. */
    function PageShown(pageNum: int): (p: int)
      ensures pageNum < 1 ==> p == 1
      ensures 1 <= pageNum <= TotalPages() ==> p == pageNum
      ensures pageNum >= 1 && pageNum > TotalPages() ==> p == TotalPages()
    {
      if pageNum < 1 then 1 else if pageNum > TotalPages() then TotalPages() else pageNum
    }

    /** `get_page`: the slice `items[(p - 1) * size : (p - 1) * size + size]` of the clamped page p. */
    function GetPage(pageNum: int): (r: seq<T>)
      ensures |r| <= |items|
      ensures pageSize > 0 ==> |r| <= pageSize
    {
      var p := PageShown(pageNum);
      var start := (p - 1) * pageSize;
      var r := PySlice(items, start, start + pageSize);
      assert pageSize > 0 ==> |r| <= pageSize by {
        if pageSize > 0 && p >= 1 {
          MulMono(0, p - 1, pageSize);
          PySliceLength(items, start, start + pageSize);
        }
      }
      r
    }

    /** `get_page_info`: the page is clamped to max(1, min(p, total)) and described. */
    function GetPageInfo(pageNum: int): (info: PageInfo)
      ensures info.pageNum == Max(1, Min(pageNum, TotalPages()))
      ensures info.totalPages == TotalPages() && info.pageSize == pageSize && info.totalItems == |items|
      ensures info.startIndex == (info.pageNum - 1) * pageSize
      ensures info.endIndex == Min(info.startIndex + pageSize, |items|)
      ensures info.itemCount == info.endIndex - info.startIndex
      ensures info.hasNext <==> info.pageNum < TotalPages()
      ensures info.hasPrev <==> info.pageNum > 1
    {
      var p := Max(1, Min(pageNum, TotalPages()));
      var start := (p - 1) * pageSize;
      var end := Min(start + pageSize, |items|);
      PageInfo(p, TotalPages(), pageSize, start, end, end - start, |items|, p < TotalPages(), p > 1)
    }

    /**
     * `format_page_indicator`: compact "(pg p/t)", after "<prefix> " when a prefix is
     * given; verbose "Page p of t (c items)".
     */
    function FormatPageIndicator(pageNum: int, prefix: string, compact: bool): (r: string)
      ensures compact ==> (r == (if prefix == "" then "" else prefix + " ") + "(pg " + IntToString(GetPageInfo(pageNum).pageNum)
                                + "/" + IntToString(TotalPages()) + ")")
      ensures !compact ==> (r == "Page " + IntToString(GetPageInfo(pageNum).pageNum) + " of " + IntToString(TotalPages())
                                 + " (" + IntToString(GetPageInfo(pageNum).itemCount) + " items)")
    {
      var info := GetPageInfo(pageNum);
      if compact then
        if prefix != "" then prefix + " (pg " + IntToString(info.pageNum) + "/" + IntToString(info.totalPages) + ")"
        else "(pg " + IntToString(info.pageNum) + "/" + IntToString(info.totalPages) + ")"
      else "Page " + IntToString(info.pageNum) + " of " + IntToString(info.totalPages) + " (" + IntToString(info.itemCount) + " items)"
    }

    /**
     * `format_navigation`: None for a single page; otherwise "N" when there is a next
     * page and "P" when there is a previous one ("[N]ext" / "[P]rev" in verbose form).
     */
    function FormatNavigation(pageNum: int, compact: bool): (r: Option<string>)
      ensures TotalPages() <= 1 ==> r == None
      ensures TotalPages() > 1 ==> r.Some?
      ensures r.Some? ==> ('N' in r.value <==> GetPageInfo(pageNum).hasNext)
      ensures r.Some? ==> ('P' in r.value <==> GetPageInfo(pageNum).hasPrev)
      ensures r.Some? && compact ==> |r.value| > 0 && r.value[|r.value| - 1] == ':'
    {
      if TotalPages() <= 1 then None
      else
        var info := GetPageInfo(pageNum);
        var next, prev := if compact then "N" else "[N]ext", if compact then "P" else "[P]rev";
        assert 'N' in next && 'N' !in prev && 'P' in prev && 'P' !in next by {
          assert next[0] == 'N' || next[1] == 'N';
          assert prev[0] == 'P' || prev[1] == 'P';
        }
        var options := (if info.hasNext then [next] else []) + (if info.hasPrev then [prev] else []);
        if options == [] then None
        else
          var sep := if compact then " " else " | ";
          assert 'N' !in sep && 'P' !in sep;
          var joined := Join(sep, options);
          assert joined == if |options| == 2 then next + sep + prev else options[0] by {
            if |options| == 2 { JoinTwo(sep, next, prev); }
          }
          Some(if compact then joined + ":" else joined)
    }
  }

  /** A Python slice is never longer than the distance between its bounds. */
  lemma PySliceLength<T>(s: seq<T>, i: int, j: int)
    requires 0 <= i <= j
    ensures |PySlice(s, i, j)| <= j - i
  {
  }

  /**
   * For a positive page size, a page in range is the stretch of the list from
   * (p - 1) * size up to p * size, cut at the end of the list.
   */
  lemma PageInRange<T>(pg: Paginator<T>, p: int)
    requires pg.pageSize > 0 && 1 <= p <= pg.TotalPages()
    ensures 0 <= (p - 1) * pg.pageSize < |pg.items|
    ensures pg.GetPage(p) == pg.items[(p - 1) * pg.pageSize .. Min(p * pg.pageSize, |pg.items|)]
  {
    var t, size := pg.TotalPages(), pg.pageSize;
    var a := (p - 1) * size;
    PageStartInside(p, t, size, |pg.items|);
    MulSucc(p - 1, size);
    assert pg.PageShown(p) == p;
    PySliceFrom(pg.items, a, a + size);
  }

  lemma PageStartInside(p: int, t: int, size: int, n: int)
    requires size > 0 && 1 <= p <= t && (t - 1) * size < n
    ensures 0 <= (p - 1) * size < n
  {
    MulMono(p - 1, t - 1, size);
    MulMono(0, p - 1, size);
  }

  lemma MulSucc(a: int, c: int)
    ensures a * c + c == (a + 1) * c
  {
  }

  lemma MulMono(a: int, b: int, c: int)
    requires a <= b && c > 0
    ensures a * c <= b * c
  {
    assert b * c - a * c == (b - a) * c;
  }

  /** A slice that starts inside the sequence runs to its upper bound or the end. */
  lemma PySliceFrom<T>(s: seq<T>, i: int, j: int)
    requires 0 <= i < |s| && i <= j
    ensures PySlice(s, i, j) == s[i..Min(j, |s|)]
  {
  }

  /** The pages 1..k one after another. */
  function Pages<T>(pg: Paginator<T>, k: nat): seq<T>
    requires k <= pg.TotalPages()
  {
    if k == 0 then [] else Pages(pg, k - 1) + pg.GetPage(k)
  }

  /** The first k pages are the list up to k * size (or to its end). */
  lemma {:induction false} PagesPrefix<T>(pg: Paginator<T>, k: nat)
    requires pg.pageSize > 0 && k <= pg.TotalPages()
    ensures Pages(pg, k) == pg.items[..Min(k * pg.pageSize, |pg.items|)]
  {
    if k > 0 {
      var size, n := pg.pageSize, |pg.items|;
      PagesPrefix(pg, k - 1);
      PageInRange(pg, k);
      MulSucc(k - 1, size);
      var a, b := (k - 1) * size, Min(k * size, n);
      assert Pages(pg, k) == Pages(pg, k - 1) + pg.GetPage(k);
      assert Pages(pg, k - 1) == pg.items[..a];
      PrefixConcat(pg.items, a, b);
    }
  }

  /** A prefix followed by the next stretch is the longer prefix. */
  lemma PrefixConcat<T>(s: seq<T>, a: int, b: int)
    requires 0 <= a <= b <= |s|
    ensures s[..a] + s[a..b] == s[..b]
  {
  }

  /** With a positive page size, reading every page in order gives back the whole list. */
  lemma PagesCoverItems<T>(pg: Paginator<T>)
    requires pg.pageSize > 0
    ensures Pages(pg, pg.TotalPages()) == pg.items
  {
    PagesPrefix(pg, pg.TotalPages());
  }

  /**
   * Out-of-range page numbers show a real page: anything below 1 shows page 1 and
   * anything beyond the last shows the last.
   */
  lemma PageClamping<T>(pg: Paginator<T>, p: int)
    ensures p < 1 ==> pg.GetPage(p) == pg.GetPage(1) || pg.TotalPages() == 0
    ensures p > pg.TotalPages() ==> pg.GetPage(p) == pg.GetPage(pg.TotalPages())
  {
  }

  /**
   * For a positive page size, the info's item count and indices describe exactly the
   * page `get_page` returns for the same page number.
   */
  lemma InfoDescribesPage<T>(pg: Paginator<T>, p: int)
    requires pg.pageSize > 0
    ensures var info := pg.GetPageInfo(p);
      0 <= info.startIndex <= info.endIndex <= |pg.items| &&
      pg.items[info.startIndex..info.endIndex] == pg.GetPage(p) &&
      info.itemCount == |pg.GetPage(p)|
  {
    var t := pg.TotalPages();
    var info := pg.GetPageInfo(p);
    if t == 0 {
      assert pg.items == [];
    } else {
      assert info.pageNum == pg.PageShown(p);
      PageInRange(pg, info.pageNum);
    }
  }

  /** The header line, the body lines, and the navigation line when there is a non-empty one. */
  function Framed(header: string, body: seq<string>, nav: Option<string>): (lines: seq<string>)
    ensures |lines| == 1 + |body| + (if nav.Some? && nav.value != "" then 1 else 0)
    ensures lines[0] == header
    ensures forall k :: 0 <= k < |body| ==> lines[1 + k] == body[k]
    ensures lines[1..1 + |body|] == body
    ensures nav.Some? && nav.value != "" ==> lines[|lines| - 1] == nav.value
  {
    [header] + body + (if nav.Some? && nav.value != "" then [nav.value] else [])
  }

  /** `paginate_and_format`: the indicator, the page's items formatted, and the prompt when wanted. */
  function PaginateAndFormat<T>(items: seq<T>, formatter: T -> string, pageNum: int, pageSize: int, title: string, showNav: bool): (lines: seq<string>)
    ensures |lines| == 1 + |Paginator(items, pageSize).GetPage(pageNum)| + (if showNav && Paginator(items, pageSize).TotalPages() > 1 then 1 else 0)
    ensures lines[0] == Paginator(items, pageSize).FormatPageIndicator(pageNum, title, true)
    ensures forall k :: 0 <= k < |Paginator(items, pageSize).GetPage(pageNum)| ==>
      lines[1 + k] == formatter(Paginator(items, pageSize).GetPage(pageNum)[k])
    ensures showNav && Paginator(items, pageSize).TotalPages() > 1 ==>
      lines[|lines| - 1] == Paginator(items, pageSize).FormatNavigation(pageNum, true).value
  {
    var pg := Paginator(items, pageSize);
    var page := pg.GetPage(pageNum);
    var body := seq(|page|, k requires 0 <= k < |page| => formatter(page[k]));
    var nav := if showNav && pg.TotalPages() > 1 then pg.FormatNavigation(pageNum, true) else None;
    assert nav.Some? <==> showNav && pg.TotalPages() > 1;
    assert nav.Some? ==> |nav.value| > 0;
    var lines := Framed(pg.FormatPageIndicator(pageNum, title, true), body, nav);
    forall k | 0 <= k < |page| ensures lines[1 + k] == formatter(page[k]) {
      assert lines[1 + k] == body[k];
    }
    lines
  }

  /**
   * `format_page_with_entities`: the indicator, then the page's entities numbered
   * from start_index + 1, then the prompt when there is one; with the page info.
   */
  function FormatPageWithEntities<T>(entities: seq<T>, formatter: (int, T) -> string, pageNum: int, pageSize: int, title: string): (r: (seq<string>, PageInfo))
    ensures r.1 == Paginator(entities, pageSize).GetPageInfo(pageNum)
  {
    var pg := Paginator(entities, pageSize);
    var info := pg.GetPageInfo(pageNum);
    var body := Numbered(pg.GetPage(pageNum), formatter, info.startIndex);
    (Framed(pg.FormatPageIndicator(pageNum, title, true), body, pg.FormatNavigation(pageNum, true)), info)
  }

  /**
   * The frame of `format_page_with_entities`: one line per entity of the shown page
   * between the compact indicator and, when there is one, the navigation prompt.
   */
  lemma PageWithEntitiesFrame<T>(entities: seq<T>, formatter: (int, T) -> string, pageNum: int, pageSize: int, title: string)
    ensures var pg := Paginator(entities, pageSize);
      var lines := FormatPageWithEntities(entities, formatter, pageNum, pageSize, title).0;
      && |lines| == 1 + |pg.GetPage(pageNum)| + (if pg.FormatNavigation(pageNum, true).Some? then 1 else 0)
      && lines[0] == pg.FormatPageIndicator(pageNum, title, true)
      && (pg.FormatNavigation(pageNum, true).Some? ==> lines[|lines| - 1] == pg.FormatNavigation(pageNum, true).value)
  {
    var pg := Paginator(entities, pageSize);
    NavigationNotEmpty(pg, pageNum);
    PageWithEntitiesUnfold(entities, formatter, pageNum, pageSize, title);
    FramedNumbered(pg.FormatPageIndicator(pageNum, title, true), pg.GetPage(pageNum), formatter,
      pg.GetPageInfo(pageNum).startIndex, pg.FormatNavigation(pageNum, true));
  }

  /** Line 1 + k of `format_page_with_entities` is entity k of the shown page, numbered start_index + 1 + k. */
  lemma PageWithEntitiesNumbering<T>(entities: seq<T>, formatter: (int, T) -> string, pageNum: int, pageSize: int, title: string, k: int)
    requires 0 <= k < |Paginator(entities, pageSize).GetPage(pageNum)|
    ensures var r := FormatPageWithEntities(entities, formatter, pageNum, pageSize, title);
      1 + k < |r.0| && r.0[1 + k] == formatter(r.1.startIndex + 1 + k, Paginator(entities, pageSize).GetPage(pageNum)[k])
  {
    var pg := Paginator(entities, pageSize);
    NavigationNotEmpty(pg, pageNum);
    PageWithEntitiesUnfold(entities, formatter, pageNum, pageSize, title);
    FramedNumbered(pg.FormatPageIndicator(pageNum, title, true), pg.GetPage(pageNum), formatter,
      FormatPageWithEntities(entities, formatter, pageNum, pageSize, title).1.startIndex,
      pg.FormatNavigation(pageNum, true));
  }

  lemma NavigationNotEmpty<T>(pg: Paginator<T>, pageNum: int)
    ensures pg.FormatNavigation(pageNum, true).Some? ==> pg.FormatNavigation(pageNum, true).value != ""
  {
  }

  lemma PageWithEntitiesUnfold<T>(entities: seq<T>, formatter: (int, T) -> string, pageNum: int, pageSize: int, title: string)
    ensures var pg := Paginator(entities, pageSize);
      FormatPageWithEntities(entities, formatter, pageNum, pageSize, title)
      == (Framed(pg.FormatPageIndicator(pageNum, title, true),
                 Numbered(pg.GetPage(pageNum), formatter, pg.GetPageInfo(pageNum).startIndex),
                 pg.FormatNavigation(pageNum, true)),
          pg.GetPageInfo(pageNum))
  {
  }

  /** A framed, numbered page: header, then entity k numbered start + 1 + k on line 1 + k, then the prompt. */
  lemma FramedNumbered<T>(header: string, page: seq<T>, formatter: (int, T) -> string, start: int, nav: Option<string>)
    requires nav.Some? ==> nav.value != ""
    ensures var lines := Framed(header, Numbered(page, formatter, start), nav);
      && |lines| == 1 + |page| + (if nav.Some? then 1 else 0)
      && lines[0] == header
      && (forall k :: 0 <= k < |page| ==> lines[1 + k] == formatter(start + 1 + k, page[k]))
      && (nav.Some? ==> lines[|lines| - 1] == nav.value)
  {
    var body := Numbered(page, formatter, start);
    var lines := Framed(header, body, nav);
    forall k | 0 <= k < |page| ensures lines[1 + k] == formatter(start + 1 + k, page[k]) {
      assert lines[1 + k] == body[k];
    }
  }

  function Numbered<T>(page: seq<T>, formatter: (int, T) -> string, start: int): (r: seq<string>)
    ensures |r| == |page|
    ensures forall k :: 0 <= k < |page| ==> r[k] == formatter(start + 1 + k, page[k])
  {
    seq(|page|, k requires 0 <= k < |page| => formatter(start + 1 + k, page[k]))
  }

  /**
   * `calculate_optimal_page_size`: with 20 bytes per overhead line, the most lines of
   * the average length that fit the byte budget, clamped to 1..20; 10 when the
   * average length is not positive.
   */
  function CalculateOptimalPageSize(avgLineLength: int, maxBytesPerPage: int, linesOverhead: int): (r: int)
    ensures avgLineLength <= 0 ==> r == 10
    ensures avgLineLength > 0 ==> 1 <= r <= 20
    ensures avgLineLength > 0 && r > 1 ==> r * avgLineLength <= maxBytesPerPage - linesOverhead * 20
    ensures avgLineLength > 0 && r < 20 ==> (r + 1) * avgLineLength > maxBytesPerPage - linesOverhead * 20
  {
    var available := maxBytesPerPage - linesOverhead * 20;
    if avgLineLength > 0 then
      var maxItems := available / avgLineLength;
      assert available == maxItems * avgLineLength + available % avgLineLength;
      assert (maxItems + 1) * avgLineLength == maxItems * avgLineLength + avgLineLength;
      assert forall m :: maxItems < m ==> m * avgLineLength >= (maxItems + 1) * avgLineLength by {
        forall m | maxItems < m ensures m * avgLineLength >= (maxItems + 1) * avgLineLength {
          MulMono(maxItems + 1, m, avgLineLength);
        }
      }
      Max(1, Min(maxItems, 20))
    else 10
  }
}
