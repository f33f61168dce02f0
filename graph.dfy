/**
 * The radial graph builder `NodeGenerator`
 * (src/components/Nodes/NodeGenerator.tsx). `Generate` is the source's
 * procedure: it pushes nodes and edges in two nested loops. `GraphNodes` and
 * `GraphEdges` say block by block what it builds: the character node, then for
 * each entry of the character's film list (repeats included) the film node
 * followed by one starship node per catalog starship that lists that film, in
 * catalog order. GraphProps proves what these lists look like.
 */
module Graph {

  import opened Wrappers
  import opened Entities
  import opened Layout
  import opened Render

  /** Node ids: `character.url`, `film-{id}`, `starship-{id}`. */
  datatype NodeId = CharacterId(url: string) | FilmId(film: int) | StarshipId(ship: int)

  /** Edge ids: `{url}-film-{id}` and `film-{id}-starship-{id}`. */
  datatype EdgeId = CharacterFilm(url: string, film: int) | FilmStarship(film: int, ship: int)

  /** What a node's `data` refers to: the entity it draws. */
  datatype Payload =
    | CharacterCard(character: Character)
    | FilmCard(film: int, title: Title)
    | StarshipCard(starship: Starship)

  datatype Node = Node(id: NodeId, position: Position, data: Payload)

  datatype Edge = Edge(id: EdgeId, source: NodeId, target: NodeId)

  /** The id string React Flow sees for a node. */
  function NodeText(id: NodeId): string {
    match id
    case CharacterId(url) => url
    case FilmId(f) => "film-" + IntText(f)
    case StarshipId(s) => "starship-" + IntText(s)
  }

  /** The id string React Flow sees for an edge. */
  function EdgeText(id: EdgeId): string {
    match id
    case CharacterFilm(url, f) => url + "-film-" + IntText(f)
    case FilmStarship(f, s) => "film-" + IntText(f) + "-starship-" + IntText(s)
  }

  /** `films.find((f) => f.id === filmId)`: the first catalog film with that id. */
  function FindFilm(films: seq<Film>, id: int): (r: Option<Film>)
    ensures r.Some? <==> exists k :: 0 <= k < |films| && films[k].id == id
    ensures r.Some? ==> r.value in films && r.value.id == id
  {
    if films == [] then None
    else if films[0].id == id then Some(films[0])
    else FindFilm(films[1..], id)
  }

  /** A film node's title: the catalog title, or the placeholder `Film {id}`. */
  datatype Title = Named(text: string) | Placeholder(film: int)

  /** The title string the film card shows. */
  function TitleText(t: Title): string {
    match t
    case Named(text) => text
    case Placeholder(f) => "Film " + IntText(f)
  }

  /** `find(...)?.title || "Film {id}"`: a missing film or an empty title falls back to the placeholder. */
  function FilmTitle(films: seq<Film>, id: int): (t: Title)
    ensures t.Named? ==> t.text != "" && exists k :: 0 <= k < |films| && films[k].id == id && films[k].title == t.text
    ensures t.Placeholder? ==> t.film == id
    ensures (forall k :: 0 <= k < |films| ==> films[k].id != id) ==> t == Placeholder(id)
  {
    match FindFilm(films, id)
    case Some(f) => if f.title != "" then Named(f.title) else Placeholder(id)
    case None => Placeholder(id)
  }

  /** `starships.filter((ship) => ship.films.includes(filmId))`. */
  function ShipsInFilm(ships: seq<Starship>, film: int): (r: seq<Starship>)
    ensures |r| <= |ships|
    ensures forall s :: s in r <==> s in ships && film in s.films
  {
    if ships == [] then []
    else (if film in ships[0].films then [ships[0]] else []) + ShipsInFilm(ships[1..], film)
  }

  function CharacterNode(c: Character): Node {
    Node(CharacterId(c.url), Centre, CharacterCard(c))
  }

  /** The node of entry `i` of the character's film list. */
  function FilmNodeAt(c: Character, films: seq<Film>, i: nat): Node
    requires i < |c.films|
  {
    var f := c.films[i];
    Node(FilmId(f), Polar(FilmRadius, FilmAngle(i, |c.films|)), FilmCard(f, FilmTitle(films, f)))
  }

  /** The character-to-film edge of entry `i` of the character's film list. */
  function FilmEdgeAt(c: Character, i: nat): Edge
    requires i < |c.films|
  {
    var f := c.films[i];
    Edge(CharacterFilm(c.url, f), CharacterId(c.url), FilmId(f))
  }

  /** Starship `j` of the `matched` starships of a film at `filmAngle`. */
  function ShipNodeAt(filmAngle: real, matched: seq<Starship>, j: nat): Node
    requires j < |matched|
  {
    var s := matched[j];
    Node(StarshipId(s.id), Polar(StarshipRadius, ShipAngle(filmAngle, j, |matched|)), StarshipCard(s))
  }

  /** The film-to-starship edge for starship `j` of the `matched` starships of `film`. */
  function ShipEdgeAt(film: int, matched: seq<Starship>, j: nat): Edge
    requires j < |matched|
  {
    var s := matched[j];
    Edge(FilmStarship(film, s.id), FilmId(film), StarshipId(s.id))
  }

  function ShipNodes(filmAngle: real, matched: seq<Starship>): seq<Node> {
    seq(|matched|, j requires 0 <= j < |matched| => ShipNodeAt(filmAngle, matched, j))
  }

  function ShipEdges(film: int, matched: seq<Starship>): seq<Edge> {
    seq(|matched|, j requires 0 <= j < |matched| => ShipEdgeAt(film, matched, j))
  }

  /** The starships of entry `i` of the character's film list. */
  function MatchedAt(c: Character, ships: seq<Starship>, i: nat): seq<Starship>
    requires i < |c.films|
  {
    ShipsInFilm(ships, c.films[i])
  }

  /** Nodes added for entry `i`: its film node, then its starship nodes. */
  function BlockNodes(c: Character, films: seq<Film>, ships: seq<Starship>, i: nat): seq<Node>
    requires i < |c.films|
  {
    [FilmNodeAt(c, films, i)] + ShipNodes(FilmAngle(i, |c.films|), MatchedAt(c, ships, i))
  }

  /** Edges added for entry `i`: its character-to-film edge, then its film-to-starship edges. */
  function BlockEdges(c: Character, ships: seq<Starship>, i: nat): seq<Edge>
    requires i < |c.films|
  {
    [FilmEdgeAt(c, i)] + ShipEdges(c.films[i], MatchedAt(c, ships, i))
  }

  /** Nodes of the first `k` entries of the film list. */
  function NodesBefore(c: Character, films: seq<Film>, ships: seq<Starship>, k: nat): seq<Node>
    requires k <= |c.films|
  {
    if k == 0 then [] else NodesBefore(c, films, ships, k - 1) + BlockNodes(c, films, ships, k - 1)
  }

  /** Edges of the first `k` entries of the film list. */
  function EdgesBefore(c: Character, ships: seq<Starship>, k: nat): seq<Edge>
    requires k <= |c.films|
  {
    if k == 0 then [] else EdgesBefore(c, ships, k - 1) + BlockEdges(c, ships, k - 1)
  }

  /** The `nodes` list `NodeGenerator` returns. */
  function GraphNodes(c: Character, films: seq<Film>, ships: seq<Starship>): seq<Node> {
    [CharacterNode(c)] + NodesBefore(c, films, ships, |c.films|)
  }

  /** The `edges` list `NodeGenerator` returns. */
  function GraphEdges(c: Character, ships: seq<Starship>): seq<Edge> {
    EdgesBefore(c, ships, |c.films|)
  }

  /** One pass of the outer loop extends the prefix of the graph by one block. */
  lemma BlockStep(c: Character, films: seq<Film>, ships: seq<Starship>, i: nat,
                  withFilm: seq<Node>, withFilmEdge: seq<Edge>, nodes: seq<Node>, edges: seq<Edge>)
    requires i < |c.films|
    requires withFilm == [CharacterNode(c)] + NodesBefore(c, films, ships, i) + [FilmNodeAt(c, films, i)]
    requires withFilmEdge == EdgesBefore(c, ships, i) + [FilmEdgeAt(c, i)]
    requires nodes == withFilm + ShipNodes(FilmAngle(i, |c.films|), MatchedAt(c, ships, i))
    requires edges == withFilmEdge + ShipEdges(c.films[i], MatchedAt(c, ships, i))
    ensures nodes == [CharacterNode(c)] + NodesBefore(c, films, ships, i + 1)
    ensures edges == EdgesBefore(c, ships, i + 1)
  {
    assert NodesBefore(c, films, ships, i + 1) == NodesBefore(c, films, ships, i) + BlockNodes(c, films, ships, i);
    assert EdgesBefore(c, ships, i + 1) == EdgesBefore(c, ships, i) + BlockEdges(c, ships, i);
  }

  /** `NodeGenerator({ character, films, starships })`. */
  method Generate(c: Character, films: seq<Film>, ships: seq<Starship>)
    returns (nodes: seq<Node>, edges: seq<Edge>)
    ensures nodes == GraphNodes(c, films, ships)
    ensures edges == GraphEdges(c, ships)
  {
    nodes := [Node(CharacterId(c.url), Centre, CharacterCard(c))];
    edges := [];
    if |c.films| > 0 {
      var i := 0;
      while i < |c.films|
        invariant 0 <= i <= |c.films|
        invariant nodes == [CharacterNode(c)] + NodesBefore(c, films, ships, i)
        invariant edges == EdgesBefore(c, ships, i)
      {
        var filmId := c.films[i];
        var angle := FilmAngle(i, |c.films|);
        var title := FilmTitle(films, filmId);
        nodes := nodes + [Node(FilmId(filmId), Polar(FilmRadius, angle), FilmCard(filmId, title))];
        edges := edges + [Edge(CharacterFilm(c.url, filmId), CharacterId(c.url), FilmId(filmId))];
        assert nodes[|nodes| - 1] == FilmNodeAt(c, films, i);
        assert edges[|edges| - 1] == FilmEdgeAt(c, i);
        var filmShips := ShipsInFilm(ships, filmId);
        ghost var nodesSoFar, edgesSoFar := nodes, edges;
        var j := 0;
        while j < |filmShips|
          invariant 0 <= j <= |filmShips|
          invariant nodes == nodesSoFar + ShipNodes(angle, filmShips)[..j]
          invariant edges == edgesSoFar + ShipEdges(filmId, filmShips)[..j]
        {
          var ship := filmShips[j];
          var shipAngle := ShipAngle(angle, j, |filmShips|);
          nodes := nodes + [Node(StarshipId(ship.id), Polar(StarshipRadius, shipAngle), StarshipCard(ship))];
          edges := edges + [Edge(FilmStarship(filmId, ship.id), FilmId(filmId), StarshipId(ship.id))];
          assert ShipNodes(angle, filmShips)[..j + 1] == ShipNodes(angle, filmShips)[..j] + [ShipNodeAt(angle, filmShips, j)];
          assert ShipEdges(filmId, filmShips)[..j + 1] == ShipEdges(filmId, filmShips)[..j] + [ShipEdgeAt(filmId, filmShips, j)];
          j := j + 1;
        }
        assert ShipNodes(angle, filmShips)[..j] == ShipNodes(angle, filmShips);
        assert ShipEdges(filmId, filmShips)[..j] == ShipEdges(filmId, filmShips);
        BlockStep(c, films, ships, i, nodesSoFar, edgesSoFar, nodes, edges);
        i := i + 1;
      }
    }
  }
}
