/**
 * The effect of `CharacterFlow` (src/components/CharacterFlow.tsx): page
 * `currentPage` (1-based, one character per page) shows the graph of
 * `characters[currentPage - 1]`; a page outside the list clears the graph.
 */
module CharacterFlow {

  import opened Wrappers
  import opened Entities
  import opened Paging
  import opened Graph

  /** `characters[currentPage - 1]`, or `None` when that index is out of range. */
  function SelectCharacter(characters: seq<Character>, currentPage: int): (r: Option<Character>)
    ensures r.Some? <==> 1 <= currentPage <= |characters|
    ensures r.Some? ==> r.value == characters[currentPage - 1]
  {
    var startIndex := currentPage - 1;
    if startIndex < 0 || startIndex >= |characters| then None else Some(characters[startIndex])
  }

  /** The `nodes` and `edges` state the React Flow canvas draws. */
  class FlowView {
    var nodes: seq<Node>
    var edges: seq<Edge>

    /** `useNodesState([])`, `useEdgesState([])`. */
    constructor ()
      ensures nodes == [] && edges == []
    {
      nodes := [];
      edges := [];
    }

    /**
     * One run of the effect. The new graph is a function of the inputs alone:
     * nothing of the previously shown graph survives.
     */
    method Refresh(characters: seq<Character>, films: seq<Film>, starships: seq<Starship>, currentPage: int)
      modifies this
      ensures SelectCharacter(characters, currentPage).None? ==> nodes == [] && edges == []
      ensures SelectCharacter(characters, currentPage).Some? ==>
                && nodes == GraphNodes(characters[currentPage - 1], films, starships)
                && edges == GraphEdges(characters[currentPage - 1], starships)
    {
      var startIndex := currentPage - 1;
      if startIndex < 0 || startIndex >= |characters| {
        nodes := [];
        edges := [];
        return;
      }
      var currentCharacter := characters[startIndex];
      var newNodes, newEdges := Generate(currentCharacter, films, starships);
      nodes := newNodes;
      edges := newEdges;
    }
  }

  /**
   * Every page the pagination offers, 1 to `Math.ceil(characters.length / 1)`,
   * selects a character, and its graph starts with that character's node.
   */
  lemma EveryOfferedPageShowsItsCharacter(characters: seq<Character>, films: seq<Film>, starships: seq<Starship>, currentPage: int)
    requires 1 <= currentPage <= CeilDiv(|characters|, 1)
    ensures SelectCharacter(characters, currentPage) == Some(characters[currentPage - 1])
    ensures |GraphNodes(characters[currentPage - 1], films, starships)| >= 1
    ensures GraphNodes(characters[currentPage - 1], films, starships)[0].id == CharacterId(characters[currentPage - 1].url)
  {
    CeilDivByOne(|characters|);
  }
}
