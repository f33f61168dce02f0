/**
 * `useFetchStarships` (src/hooks/useFetchStarships.tsx): the whole starship
 * catalog is loaded once and shown ten at a time.
 */
module StarshipPaging {

  import opened Wrappers
  import opened Entities
  import opened Paging

  const ItemsPerPage: nat := 10

  /** `getPaginatedStarships()`: the items of 1-based page `page`. */
  function PageOf<T>(all: seq<T>, page: nat): (r: seq<T>)
    requires page >= 1
    ensures |r| <= ItemsPerPage
    ensures forall k :: 0 <= k < |r| ==> (page - 1) * ItemsPerPage + k < |all| && r[k] == all[(page - 1) * ItemsPerPage + k]
  {
    var start := (page - 1) * ItemsPerPage;
    Slice(all, start, start + ItemsPerPage)
  }

  /** `totalPages`: `Math.ceil(length / itemsPerPage)`, the fewest pages of ten that hold `count` items. */
  function TotalPages(count: nat): (r: nat)
    ensures r * ItemsPerPage >= count
    ensures r > 0 ==> (r - 1) * ItemsPerPage < count
  {
    CeilDiv(count, ItemsPerPage)
  }

  /** Pages 1 to `k`, one after the other. */
  function PagesUpTo<T>(all: seq<T>, k: nat): seq<T> {
    if k == 0 then [] else PagesUpTo(all, k - 1) + PageOf(all, k)
  }

  lemma {:induction false} PagesUpToPrefix<T>(all: seq<T>, k: nat)
    ensures PagesUpTo(all, k) == all[..Min(k * ItemsPerPage, |all|)]
  {
    if k > 0 {
      PagesUpToPrefix(all, k - 1);
      var lo := Min((k - 1) * ItemsPerPage, |all|);
      var hi := Min(k * ItemsPerPage, |all|);
      var page := PageOf(all, k);
      assert |page| == hi - lo;
      assert all[..hi] == all[..lo] + all[lo..hi];
      assert page == all[lo..hi];
    }
  }

  /** Reading the pages 1 to `totalPages` in turn shows the whole list once, in order. */
  lemma PagesCoverList<T>(all: seq<T>)
    ensures PagesUpTo(all, TotalPages(|all|)) == all
  {
    PagesUpToPrefix(all, TotalPages(|all|));
    assert TotalPages(|all|) * ItemsPerPage >= |all|;
  }

  /** A page shows something exactly when it is one of the pages `totalPages` counts. */
  lemma PageNonEmptyIffCounted<T>(all: seq<T>, page: nat)
    requires page >= 1
    ensures PageOf(all, page) != [] <==> page <= TotalPages(|all|)
  {
    var r := TotalPages(|all|);
    if page <= r {
      assert (page - 1) * ItemsPerPage <= (r - 1) * ItemsPerPage;
      assert |PageOf(all, page)| > 0;
    } else {
      assert (page - 1) * ItemsPerPage >= r * ItemsPerPage;
    }
  }

  /** Fifteen starships make two pages: ten, then five. */
  lemma FifteenStarships<T>(all: seq<T>)
    requires |all| == 15
    ensures TotalPages(|all|) == 2
    ensures |PageOf(all, 1)| == 10 && |PageOf(all, 2)| == 5
  {
  }

  /** What `err instanceof Error` sees in a rejected load. */
  datatype Thrown = ErrorInstance(message: string) | OtherValue

  /** The settled `fetchAllStarships()` promise: its data, or what it was rejected with. */
  datatype StarshipFetch = Fetched(data: seq<Starship>) | Rejected(reason: Thrown)

  /** `err instanceof Error ? err.message : "An error occurred"`. */
  function ErrorText(t: Thrown): (r: string)
    ensures t.ErrorInstance? ==> r == t.message
    ensures r == "" <==> t.ErrorInstance? && t.message == ""
  {
    match t
    case ErrorInstance(message) => message
    case OtherValue => "An error occurred"
  }

  /** The hook's state. */
  class StarshipCatalog {
    var starships: seq<Starship>
    var loading: bool
    var error: Option<string>
    var page: int
    var hasMore: bool

    ghost predicate Valid()
      reads this
    {
      page >= 1
    }

    /** `totalPages` of the current list. */
    function PageCount(): nat
      reads this
    {
      TotalPages(|starships|)
    }

    /** The `starships` the hook returns: the current page of the list. */
    function Visible(): (v: seq<Starship>)
      reads this
      requires Valid()
      ensures |v| <= ItemsPerPage
      ensures v != [] <==> page <= PageCount()
    {
      PageNonEmptyIffCounted(starships, page);
      PageOf(starships, page)
    }

    /** The initial state of the hook. */
    constructor ()
      ensures Valid()
      ensures starships == [] && loading && error == None && page == 1 && hasMore
      ensures Visible() == [] && PageCount() == 0
    {
      starships := [];
      loading := true;
      error := None;
      page := 1;
      hasMore := true;
    }

    /** `goToPage(newPage)`: moves only to a page between 1 and `totalPages`. */
    method GoToPage(newPage: int)
      requires Valid()
      modifies this
      ensures Valid()
      ensures page == if 1 <= newPage <= old(PageCount()) then newPage else old(page)
      ensures starships == old(starships) && loading == old(loading)
      ensures error == old(error) && hasMore == old(hasMore)
    {
      var maxPage := CeilDiv(|starships|, ItemsPerPage);
      if newPage >= 1 && newPage <= maxPage {
        page := newPage;
      }
    }

    /** `loadStarships()` once the fetch has settled, with its `finally`. */
    method LoadStarships(outcome: StarshipFetch)
      requires Valid()
      modifies this
      ensures Valid()
      ensures !loading && page == old(page)
      ensures outcome.Fetched? ==>
                && starships == outcome.data
                && hasMore == (|outcome.data| > ItemsPerPage)
                && error == old(error)
      ensures outcome.Rejected? ==>
                && starships == old(starships)
                && hasMore == old(hasMore)
                && error == Some(ErrorText(outcome.reason))
    {
      loading := true;
      match outcome {
        case Fetched(data) =>
          starships := data;
          hasMore := |data| > ItemsPerPage;
        case Rejected(reason) =>
          error := Some(ErrorText(reason));
      }
      loading := false;
    }
  }
}
