/**
 * `useFetchCharacters` (src/hooks/useFetchCharacters.tsx): characters are
 * fetched a page at a time and appended, until a page says there is no next.
 */
module CharacterLoader {

  import opened Wrappers
  import opened Entities

  /** ICharacterResponse: one page of characters and the URL of the next page, if any. */
  datatype CharacterPage = CharacterPage(results: seq<Character>, next: Option<string>)

  /** `!!response.next`: a next-page URL that is present and not empty. */
  predicate HasNext(p: CharacterPage) {
    p.next.Some? && p.next.value != ""
  }

  const FetchFailed: string := "Failed to fetch characters"

  /** The characters of the pages received so far, in the order they arrived. */
  function Flatten(pages: seq<CharacterPage>): seq<Character> {
    if pages == [] then [] else Flatten(pages[..|pages| - 1]) + pages[|pages| - 1].results
  }

  /** The number of results of the pages, summed from the first page on. */
  function ResultCount(pages: seq<CharacterPage>): nat {
    if pages == [] then 0 else |pages[0].results| + ResultCount(pages[1..])
  }

  lemma {:induction false} ResultCountAppend(pages: seq<CharacterPage>, p: CharacterPage)
    ensures ResultCount(pages + [p]) == ResultCount(pages) + |p.results|
  {
    if pages == [] {
      assert [p][1..] == [];
    } else {
      assert (pages + [p])[1..] == pages[1..] + [p];
      ResultCountAppend(pages[1..], p);
    }
  }

  /** After `k` pages the list holds as many characters as the pages' results together. */
  lemma {:induction false} FlattenLength(pages: seq<CharacterPage>)
    ensures |Flatten(pages)| == ResultCount(pages)
  {
    if pages != [] {
      var init := pages[..|pages| - 1];
      FlattenLength(init);
      ResultCountAppend(init, pages[|pages| - 1]);
      assert init + [pages[|pages| - 1]] == pages;
    }
  }

  /** The hook's state, with the pages appended so far as a ghost history. */
  class Loader {
    var characters: seq<Character>
    var loading: bool
    var error: Option<string>
    var page: int
    var hasMore: bool
    ghost var received: seq<CharacterPage>

    /**
     * `page` is one past the number of pages appended, `characters` is their
     * results in order, and `hasMore` is what the last of them said.
     */
    ghost predicate Valid()
      reads this
    {
      && page == 1 + |received|
      && characters == Flatten(received)
      && hasMore == (received == [] || HasNext(received[|received| - 1]))
    }

    /** The initial state of the hook. */
    constructor ()
      ensures Valid()
      ensures characters == [] && loading && error == None && page == 1 && hasMore
      ensures received == []
    {
      characters := [];
      loading := true;
      error := None;
      page := 1;
      hasMore := true;
      received := [];
    }

    /**
     * `loadMoreCharacters()` once `fetchCharacters(page)` has settled with
     * `response` (`None` for its `null`), with its `finally`.
     */
    method LoadMore(response: Option<CharacterPage>)
      requires Valid()
      modifies this
      ensures Valid()
      ensures !loading && page >= old(page)
      ensures !old(hasMore) ==>
                && characters == old(characters) && page == old(page) && hasMore == old(hasMore)
                && error == old(error) && received == old(received)
      ensures old(hasMore) && response.Some? ==>
                && characters == old(characters) + response.value.results
                && hasMore == HasNext(response.value)
                && page == old(page) + 1
                && error == old(error)
                && received == old(received) + [response.value]
      ensures old(hasMore) && response.None? ==>
                && error == Some(FetchFailed)
                && characters == old(characters) && page == old(page) && hasMore == old(hasMore)
                && received == old(received)
    {
      if !hasMore {
        loading := false;
        return;
      }
      loading := true;
      if response.None? {
        // the updater reads `results` of the null response and throws (here it is
        // applied when it is queued); the catch records the failure
        error := Some(FetchFailed);
        loading := false;
        return;
      }
      var results := response.value.results;
      characters := characters + results;
      hasMore := HasNext(response.value);
      page := page + 1;
      received := received + [response.value];
      assert received[..|received| - 1] == old(received);
      loading := false;
    }

    /**
     * `!!response.next`: once pages have been received, loading goes on exactly
     * when the last of them has a `next` URL that is neither null nor empty.
     */
    lemma NoMoreAfterLastPage()
      requires Valid() && received != []
      ensures hasMore <==> received[|received| - 1].next.Some? && received[|received| - 1].next.value != ""
    {
    }

    /** The number of characters loaded is the sum of the result counts of the pages received. */
    lemma LoadedCount()
      requires Valid()
      ensures |characters| == ResultCount(received) && page == 1 + |received|
    {
      FlattenLength(received);
    }
  }
}
