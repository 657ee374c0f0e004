/**
 * The two queries the dialog makes of the document's page sequence:
 * PageSequence::selectAll and PageSequence::selectPagePlusFollowers. The
 * sequence lists the page ids in document order, each id once.
 */
module PageSequence {

  /** An opaque page identifier. */
  datatype PageId = PageId(id: int)

  /** Every id occurs at most once in the sequence. */
  predicate Distinct(pages: seq<PageId>) {
    forall i, j :: 0 <= i < j < |pages| ==> pages[i] != pages[j]
  }

  /** selectAll: the ids of all pages, as a set. */
  function SelectAll(pages: seq<PageId>): (r: set<PageId>)
    ensures forall i :: 0 <= i < |pages| ==> pages[i] in r
    ensures forall p :: p in r ==> p in pages
  {
    set p | p in pages
  }

  /** Distinct ids give a selection of the same size as the sequence. */
  lemma {:induction false} SelectAllSize(pages: seq<PageId>)
    requires Distinct(pages)
    ensures |SelectAll(pages)| == |pages|
  {
    if pages != [] {
      assert Distinct(pages[1..]);
      SelectAllSize(pages[1..]);
      assert SelectAll(pages) == {pages[0]} + SelectAll(pages[1..]);
      assert pages[0] !in SelectAll(pages[1..]);
    }
  }

  /**
   * selectPagePlusFollowers: `page` and every page after it in document
   * order; the empty set when `page` is not in the sequence.
   */
  function SelectPagePlusFollowers(pages: seq<PageId>, page: PageId): (r: set<PageId>)
    ensures r <= SelectAll(pages)
    ensures page in r <==> page in pages
    ensures page !in pages ==> r == {}
  {
    if pages == [] then {}
    else if pages[0] == page then SelectAll(pages)
    else SelectPagePlusFollowers(pages[1..], page)
  }

  /**
   * For a page found at position `k`, the selection is exactly the pages from
   * position `k` on; none of the earlier pages is in it.
   */
  lemma {:induction false} PlusFollowersFrom(pages: seq<PageId>, page: PageId, k: nat)
    requires Distinct(pages)
    requires k < |pages| && pages[k] == page
    ensures SelectPagePlusFollowers(pages, page) == SelectAll(pages[k..])
    ensures forall j :: 0 <= j < k ==> pages[j] !in SelectPagePlusFollowers(pages, page)
  {
    if pages[0] == page {
      assert k == 0;
      assert pages[k..] == pages;
    } else {
      assert Distinct(pages[1..]);
      PlusFollowersFrom(pages[1..], page, k - 1);
      assert pages[1..][k - 1..] == pages[k..];
    }
  }

  /**
   * Membership in the selection, by position: `p` is selected exactly when
   * it occurs at or after the position of `page`.
   */
  lemma {:induction false} PlusFollowersMembers(pages: seq<PageId>, page: PageId, p: PageId)
    requires Distinct(pages)
    ensures p in SelectPagePlusFollowers(pages, page) <==>
            exists i, j :: 0 <= i <= j < |pages| && pages[i] == page && pages[j] == p
  {
    var sel := SelectPagePlusFollowers(pages, page);
    if page in pages {
      var k :| 0 <= k < |pages| && pages[k] == page;
      PlusFollowersFrom(pages, page, k);
      var tail := pages[k..];
      assert sel == SelectAll(tail);
      if p in sel {
        assert p in tail;
        var i :| 0 <= i < |tail| && tail[i] == p;
        assert pages[k] == page && pages[k + i] == p;
      }
      if exists i, j :: 0 <= i <= j < |pages| && pages[i] == page && pages[j] == p {
        var i, j :| 0 <= i <= j < |pages| && pages[i] == page && pages[j] == p;
        assert i == k;
        assert tail[j - k] == p;
      }
    } else {
      assert sel == {};
    }
  }
}
