/**
 * The paginator of utils/pages.py: a fixed list of embeds, the index of the
 * page on show, and the five navigation buttons (first, previous, goto, next,
 * last) whose disabled flags and goto label follow the page on show.
 *
 * Sending and editing Discord messages is not modelled: showing a page
 * returns the embed that would be sent.
 */
module Pagination {
  import opened Text
  import opened Embeds

  // ---------------------------------------------------------------------------
  // The page-number modal
  // ---------------------------------------------------------------------------

  /** The hint the page-number modal shows: the accepted range `1-max`. */
  function Placeholder(maxNumber: nat): (s: string)
    ensures |s| > 2 && s[..2] == "1-" && ParseNat(s[2..]) == Some(maxNumber)
  {
    NatToStringRoundTrip(maxNumber);
    assert ("1-" + NatToString(maxNumber))[2..] == NatToString(maxNumber);
    "1-" + NatToString(maxNumber)
  }

  // What the modal hands back for the text typed in is `ParseInt` of it: an
  // integer, or None when the text is not one.

  /** The complaint sent when the number typed in is missing or out of range. */
  function InvalidPageMessage(pageCount: nat): string {
    "Invalid page number. Please enter a number between 1 and " + NatToString(pageCount)
  }

  // ---------------------------------------------------------------------------
  // The goto label
  // ---------------------------------------------------------------------------

  /** The goto button's label: the one-based page on show, a slash, the page count. */
  function PageLabel(currentPage: nat, pageCount: nat): string {
    NatToString(currentPage + 1) + "/" + NatToString(pageCount)
  }

  /** Reads a label back into (one-based page, page count). */
  function ReadPageLabel(s: string): Option<(nat, nat)> {
    var k := FirstIndex(s, '/');
    if k == |s| then None
    else
      match (ParseNat(s[..k]), ParseNat(s[k + 1..]))
      case (Some(page), Some(count)) => Some((page, count))
      case _ => None
  }

  /** The label names the page on show and the page count, and nothing else. */
  lemma PageLabelRoundTrip(currentPage: nat, pageCount: nat)
    ensures ReadPageLabel(PageLabel(currentPage, pageCount)) == Some((currentPage + 1, pageCount))
  {
    var a, b := NatToString(currentPage + 1), NatToString(pageCount);
    var s := PageLabel(currentPage, pageCount);
    assert '/' !in a by {
      assert forall j :: 0 <= j < |a| ==> IsDigit(a[j]);
    }
    FirstIndexAfter(a, '/', b);
    assert s[..|a|] == a && s[|a| + 1..] == b;
    NatToStringRoundTrip(currentPage + 1);
    NatToStringRoundTrip(pageCount);
  }

  // ---------------------------------------------------------------------------
  // The paginator
  // ---------------------------------------------------------------------------

  class Pages {
    const pages: seq<Embed>
    const pageCount: nat
    /** Index of the page on show. */
    var currentPage: int
    var firstDisabled: bool
    var previousDisabled: bool
    var gotoDisabled: bool
    var nextDisabled: bool
    var lastDisabled: bool
    /** The goto button's label; None until a page is first shown. */
    var gotoLabel: Option<string>

    /** The page count is the number of pages, the index is a page, and goto is off exactly when there is one page. */
    ghost predicate Valid()
      reads this
    {
      pageCount == |pages| > 0 &&
      0 <= currentPage < pageCount &&
      gotoDisabled == (pageCount == 1)
    }

    /** The buttons describe the page on show. */
    ghost predicate ButtonsAgree()
      reads this
      requires Valid()
    {
      gotoLabel == Some(PageLabel(currentPage, pageCount)) &&
      firstDisabled == (currentPage == 0) &&
      previousDisabled == (currentPage == 0) &&
      nextDisabled == (currentPage == pageCount - 1) &&
      lastDisabled == (currentPage == pageCount - 1)
    }

    /** `clamp_index`: the nearest page index to `index`. */
    function ClampIndex(index: int): (r: int)
      requires pageCount > 0
      ensures 0 <= r < pageCount
      ensures 0 <= index < pageCount ==> r == index
      ensures index < 0 ==> r == 0
      ensures index >= pageCount ==> r == pageCount - 1
    {
      var low := if index > 0 then index else 0;
      if low < pageCount - 1 then low else pageCount - 1
    }

    /** Needs at least one page; starts on `startPage` clamped to the pages, with only goto possibly disabled. */
    constructor (pages: seq<Embed>, startPage: int := 0)
      requires |pages| > 0
      ensures this.pages == pages && pageCount == |pages|
      ensures Valid()
      ensures currentPage == ClampIndex(startPage)
      ensures !firstDisabled && !previousDisabled && !nextDisabled && !lastDisabled
      ensures gotoLabel == None
    {
      this.pages := pages;
      pageCount := |pages|;
      firstDisabled, previousDisabled, nextDisabled, lastDisabled := false, false, false, false;
      gotoDisabled := |pages| == 1;
      gotoLabel := None;
      new;
      currentPage := ClampIndex(startPage);
    }

    /** `show_page`: moves to `index` clamped to the pages and sets the buttons to match; returns the embed shown. */
    method ShowPage(index: int) returns (shown: Embed)
      requires Valid()
      modifies this
      ensures Valid() && ButtonsAgree()
      ensures currentPage == ClampIndex(index)
      ensures shown == pages[currentPage]
    {
      currentPage := ClampIndex(index);
      gotoLabel := Some(PageLabel(currentPage, pageCount));
      var isFirstPage := currentPage == 0;
      firstDisabled := isFirstPage;
      previousDisabled := isFirstPage;
      var isLastPage := currentPage == pageCount - 1;
      lastDisabled := isLastPage;
      nextDisabled := isLastPage;
      shown := pages[currentPage];
    }

    /** `show`: shows the page the paginator is on. */
    method Show() returns (shown: Embed)
      requires Valid()
      modifies this
      ensures Valid() && ButtonsAgree()
      ensures currentPage == old(currentPage)
      ensures shown == pages[currentPage]
    {
      shown := ShowPage(currentPage);
    }

    /** The first-page button. */
    method First() returns (shown: Embed)
      requires Valid()
      modifies this
      ensures Valid() && ButtonsAgree()
      ensures currentPage == 0
      ensures shown == pages[0]
    {
      shown := ShowPage(0);
    }

    /** The previous-page button: one page back, staying put on the first page. */
    method Previous() returns (shown: Embed)
      requires Valid()
      modifies this
      ensures Valid() && ButtonsAgree()
      ensures currentPage == if old(currentPage) == 0 then 0 else old(currentPage) - 1
      ensures shown == pages[currentPage]
    {
      shown := ShowPage(currentPage - 1);
    }

    /** The next-page button: one page on, staying put on the last page. */
    method Next() returns (shown: Embed)
      requires Valid()
      modifies this
      ensures Valid() && ButtonsAgree()
      ensures currentPage == if old(currentPage) == pageCount - 1 then old(currentPage) else old(currentPage) + 1
      ensures shown == pages[currentPage]
    {
      shown := ShowPage(currentPage + 1);
    }

    /** The last-page button. */
    method Last() returns (shown: Embed)
      requires Valid()
      modifies this
      ensures Valid() && ButtonsAgree()
      ensures currentPage == pageCount - 1
      ensures shown == pages[pageCount - 1]
    {
      shown := ShowPage(pageCount - 1);
    }

    /**
     * The goto button, given the text typed into its modal: a number from 1 to
     * the page count shows that page; anything else leaves the paginator as it
     * was and returns the complaint.
     */
    method Goto(text: string) returns (complaint: Option<string>, shown: Option<Embed>)
      requires Valid()
      modifies this
      ensures Valid()
      ensures var n := ParseInt(text);
              if n.Some? && 1 <= n.value <= pageCount then
                complaint == None && currentPage == n.value - 1 && ButtonsAgree() && shown == Some(pages[currentPage])
              else
                complaint == Some(InvalidPageMessage(pageCount)) && shown == None && unchanged(this)
    {
      var pageNumber := ParseInt(text);
      if pageNumber.None? || pageNumber.value < 1 || pageNumber.value > pageCount {
        return Some(InvalidPageMessage(pageCount)), None;
      }
      var page := ShowPage(pageNumber.value - 1);
      complaint, shown := None, Some(page);
    }
  }
}
