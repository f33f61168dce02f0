/**
 * What the lists `NodeGenerator` returns look like: their sizes, where each
 * film and starship node sits in them, how every edge lines up with a node,
 * the id scheme, the title fallback, and the consequences of building ids
 * without de-duplication or film scoping.
 */
module GraphProps {

  import opened Wrappers
  import opened Entities
  import opened Layout
  import opened Render
  import opened Graph

  /** Starships matched by the first `k` entries of the film list, counted with repeats. */
  function ShipTotal(c: Character, ships: seq<Starship>, k: nat): nat
    requires k <= |c.films|
  {
    if k == 0 then 0 else ShipTotal(c, ships, k - 1) + |MatchedAt(c, ships, k - 1)|
  }

  /** Index in `GraphEdges` of the edge to film entry `i`; its node sits one further on in `GraphNodes`. */
  function BlockStart(c: Character, ships: seq<Starship>, i: nat): nat
    requires i <= |c.films|
  {
    i + ShipTotal(c, ships, i)
  }

  // ---------------------------------------------------------------------
  // The starship filter

  /** Filtering a concatenated catalog filters each part and keeps their order. */
  lemma {:induction false} ShipsInFilmAppend(a: seq<Starship>, b: seq<Starship>, film: int)
    ensures ShipsInFilm(a + b, film) == ShipsInFilm(a, film) + ShipsInFilm(b, film)
  {
    if a == [] {
      assert a + b == b;
    } else {
      assert (a + b)[1..] == a[1..] + b;
      ShipsInFilmAppend(a[1..], b, film);
    }
  }

  /** A one-starship catalog keeps its starship exactly when it lists the film. */
  lemma ShipsInFilmSingle(s: Starship, film: int)
    ensures ShipsInFilm([s], film) == if film in s.films then [s] else []
  {
    assert [s][1..] == [];
  }

  // ---------------------------------------------------------------------
  // The film lookup and the title fallback

  /** `j` is the first catalog index whose film has id `id`. */
  predicate IsFirstMatch(films: seq<Film>, id: int, j: nat) {
    j < |films| && films[j].id == id && forall k :: 0 <= k < j ==> films[k].id != id
  }

  /** `find` returns the film at the first matching index. */
  lemma {:induction false} FindFilmIsFirst(films: seq<Film>, id: int, j: nat)
    requires IsFirstMatch(films, id, j)
    ensures FindFilm(films, id) == Some(films[j])
  {
    if films[0].id != id {
      assert j > 0;
      assert IsFirstMatch(films[1..], id, j - 1) by {
        forall k | 0 <= k < j - 1 ensures films[1..][k].id != id {
          assert films[1..][k] == films[k + 1];
        }
      }
      FindFilmIsFirst(films[1..], id, j - 1);
    }
  }

  /** The title of a film node: the first matching film's title if that is non-empty, else `Film {id}`. */
  lemma FilmTitleFound(films: seq<Film>, id: int, j: nat)
    requires IsFirstMatch(films, id, j)
    ensures TitleText(FilmTitle(films, id)) == if films[j].title != "" then films[j].title else "Film " + IntText(id)
  {
    FindFilmIsFirst(films, id, j);
  }

  /** A film id missing from the catalog still gets a node, titled `Film {id}`. */
  lemma FilmTitleDangling(films: seq<Film>, id: int)
    requires forall k :: 0 <= k < |films| ==> films[k].id != id
    ensures TitleText(FilmTitle(films, id)) == "Film " + IntText(id)
  {
  }

  /** A film id that is absent from an empty catalog renders as the placeholder: film 99 is titled "Film 99". */
  lemma DanglingFilmNinetyNine()
    ensures TitleText(FilmTitle([], 99)) == "Film 99"
  {
    assert NatText(9) == "9";
    assert NatText(99) == NatText(9) + [Digit(9)];
  }

  // ---------------------------------------------------------------------
  // Sizes

  lemma {:induction false} BlockSizes(c: Character, films: seq<Film>, ships: seq<Starship>, k: nat)
    requires k <= |c.films|
    ensures |NodesBefore(c, films, ships, k)| == BlockStart(c, ships, k)
    ensures |EdgesBefore(c, ships, k)| == BlockStart(c, ships, k)
  {
    if k > 0 {
      BlockSizes(c, films, ships, k - 1);
    }
  }

  /** One character node, one node per film entry, one per matched starship; one edge per non-character node. */
  lemma GraphSize(c: Character, films: seq<Film>, ships: seq<Starship>)
    ensures |GraphNodes(c, films, ships)| == 1 + |c.films| + ShipTotal(c, ships, |c.films|)
    ensures |GraphEdges(c, ships)| == |c.films| + ShipTotal(c, ships, |c.films|)
  {
    BlockSizes(c, films, ships, |c.films|);
  }

  /** A character without films yields exactly its own node and no edge. */
  lemma NoFilmsOnlyCharacter(c: Character, films: seq<Film>, ships: seq<Starship>)
    requires c.films == []
    ensures GraphNodes(c, films, ships) == [CharacterNode(c)]
    ensures GraphEdges(c, ships) == []
  {
  }

  /** Without starships the graph is the character, its film nodes, and one character-to-film edge each. */
  lemma NoStarshipsStar(c: Character, films: seq<Film>)
    ensures |GraphNodes(c, films, [])| == 1 + |c.films|
    ensures |GraphEdges(c, [])| == |c.films|
    ensures forall q :: 0 <= q < |GraphEdges(c, [])| ==> GraphEdges(c, [])[q] == FilmEdgeAt(c, q)
  {
    NoStarshipsBlocks(c, films, |c.films|);
  }

  lemma {:induction false} NoStarshipsBlocks(c: Character, films: seq<Film>, k: nat)
    requires k <= |c.films|
    ensures |NodesBefore(c, films, [], k)| == k
    ensures |EdgesBefore(c, [], k)| == k
    ensures forall q :: 0 <= q < k ==> EdgesBefore(c, [], k)[q] == FilmEdgeAt(c, q)
  {
    if k > 0 {
      NoStarshipsBlocks(c, films, k - 1);
      assert MatchedAt(c, [], k - 1) == [];
    }
  }

  // ---------------------------------------------------------------------
  // Where each block lands

  lemma {:induction false} ShipTotalMonotone(c: Character, ships: seq<Starship>, i: nat, k: nat)
    requires i <= k <= |c.films|
    ensures ShipTotal(c, ships, i) <= ShipTotal(c, ships, k)
  {
    if i < k {
      ShipTotalMonotone(c, ships, i, k - 1);
    }
  }

  /** The nodes and edges of the first `i` entries are a prefix of those of the first `k`. */
  lemma {:induction false} PrefixesGrow(c: Character, films: seq<Film>, ships: seq<Starship>, i: nat, k: nat)
    requires i <= k <= |c.films|
    ensures |NodesBefore(c, films, ships, i)| <= |NodesBefore(c, films, ships, k)|
    ensures NodesBefore(c, films, ships, k)[..|NodesBefore(c, films, ships, i)|] == NodesBefore(c, films, ships, i)
    ensures |EdgesBefore(c, ships, i)| <= |EdgesBefore(c, ships, k)|
    ensures EdgesBefore(c, ships, k)[..|EdgesBefore(c, ships, i)|] == EdgesBefore(c, ships, i)
  {
    if i < k {
      PrefixesGrow(c, films, ships, i, k - 1);
      var nk1 := NodesBefore(c, films, ships, k - 1);
      var ek1 := EdgesBefore(c, ships, k - 1);
      var ni := NodesBefore(c, films, ships, i);
      var ei := EdgesBefore(c, ships, i);
      assert NodesBefore(c, films, ships, k)[..|ni|] == nk1[..|ni|];
      assert EdgesBefore(c, ships, k)[..|ei|] == ek1[..|ei|];
    }
  }

  /** If `pre + block` is a prefix of `all`, `block` sits in `all` right after `pre`. */
  lemma PrefixPlacement<T>(all: seq<T>, pre: seq<T>, block: seq<T>)
    requires |pre + block| <= |all| && all[..|pre + block|] == pre + block
    ensures all[|pre|..|pre| + |block|] == block
  {
    assert all[|pre|..|pre| + |block|] == all[..|pre + block|][|pre|..];
  }

  /** Entry `i`'s block occupies the positions of `NodesBefore` and `EdgesBefore` starting at `BlockStart(i)`. */
  lemma BlockInPlace(c: Character, films: seq<Film>, ships: seq<Starship>, i: nat)
    requires i < |c.films|
    ensures BlockStart(c, ships, i) + |BlockNodes(c, films, ships, i)| <= |NodesBefore(c, films, ships, |c.films|)|
    ensures BlockStart(c, ships, i) + |BlockEdges(c, ships, i)| <= |EdgesBefore(c, ships, |c.films|)|
    ensures NodesBefore(c, films, ships, |c.films|)[BlockStart(c, ships, i)..BlockStart(c, ships, i) + |BlockNodes(c, films, ships, i)|]
         == BlockNodes(c, films, ships, i)
    ensures EdgesBefore(c, ships, |c.films|)[BlockStart(c, ships, i)..BlockStart(c, ships, i) + |BlockEdges(c, ships, i)|]
         == BlockEdges(c, ships, i)
  {
    var n := |c.films|;
    PrefixesGrow(c, films, ships, i + 1, n);
    BlockSizes(c, films, ships, i);
    var pre := NodesBefore(c, films, ships, i);
    var preE := EdgesBefore(c, ships, i);
    var block := BlockNodes(c, films, ships, i);
    var blockE := BlockEdges(c, ships, i);
    assert NodesBefore(c, films, ships, i + 1) == pre + block;
    assert EdgesBefore(c, ships, i + 1) == preE + blockE;
    PrefixPlacement(NodesBefore(c, films, ships, n), pre, block);
    PrefixPlacement(EdgesBefore(c, ships, n), preE, blockE);
  }

  /**
   * Film entry `i` is node `1 + BlockStart(i)`, on the film ring at angle `i/n - 1/4`
   * (`2*pi*i/n - pi/2` radians), titled by `FilmTitle`; edge `BlockStart(i)` joins the
   * character to it. Its matched starships follow it directly.
   */
  lemma FilmPlacement(c: Character, films: seq<Film>, ships: seq<Starship>, i: nat)
    requires i < |c.films|
    ensures 2 + BlockStart(c, ships, i) + |MatchedAt(c, ships, i)| <= |GraphNodes(c, films, ships)|
    ensures 1 + BlockStart(c, ships, i) + |MatchedAt(c, ships, i)| <= |GraphEdges(c, ships)|
    ensures GraphNodes(c, films, ships)[1 + BlockStart(c, ships, i)]
         == Node(FilmId(c.films[i]), Polar(FilmRadius, FilmAngle(i, |c.films|)),
                 FilmCard(c.films[i], FilmTitle(films, c.films[i])))
    ensures GraphEdges(c, ships)[BlockStart(c, ships, i)]
         == Edge(CharacterFilm(c.url, c.films[i]), CharacterId(c.url), FilmId(c.films[i]))
  {
    BlockInPlace(c, films, ships, i);
    var b := BlockStart(c, ships, i);
    var all := NodesBefore(c, films, ships, |c.films|);
    var block := BlockNodes(c, films, ships, i);
    var blockE := BlockEdges(c, ships, i);
    assert all[b..b + |block|][0] == block[0];
    assert GraphEdges(c, ships)[b..b + |blockE|][0] == blockE[0];
    assert GraphNodes(c, films, ships)[1 + b] == all[b];
  }

  /**
   * The `j`-th starship matched by film entry `i` (catalog order) is node
   * `2 + BlockStart(i) + j`, on the starship ring at `ShipAngle` of the film's angle,
   * and edge `1 + BlockStart(i) + j` joins the film to it.
   */
  lemma ShipPlacement(c: Character, films: seq<Film>, ships: seq<Starship>, i: nat, j: nat)
    requires i < |c.films| && j < |MatchedAt(c, ships, i)|
    ensures 2 + BlockStart(c, ships, i) + j < |GraphNodes(c, films, ships)|
    ensures 1 + BlockStart(c, ships, i) + j < |GraphEdges(c, ships)|
    ensures var s := MatchedAt(c, ships, i)[j];
            GraphNodes(c, films, ships)[2 + BlockStart(c, ships, i) + j]
            == Node(StarshipId(s.id),
                    Polar(StarshipRadius, ShipAngle(FilmAngle(i, |c.films|), j, |MatchedAt(c, ships, i)|)),
                    StarshipCard(s))
    ensures var s := MatchedAt(c, ships, i)[j];
            GraphEdges(c, ships)[1 + BlockStart(c, ships, i) + j]
            == Edge(FilmStarship(c.films[i], s.id), FilmId(c.films[i]), StarshipId(s.id))
  {
    BlockInPlace(c, films, ships, i);
    ShipInBlock(c, films, ships, i, j);
    var b := BlockStart(c, ships, i);
    var all := NodesBefore(c, films, ships, |c.films|);
    var edges := GraphEdges(c, ships);
    var block := BlockNodes(c, films, ships, i);
    var blockE := BlockEdges(c, ships, i);
    assert all[b..b + |block|][1 + j] == block[1 + j];
    assert edges[b..b + |blockE|][1 + j] == blockE[1 + j];
    assert GraphNodes(c, films, ships)[2 + b + j] == all[b + (1 + j)];
  }

  lemma ShipInBlock(c: Character, films: seq<Film>, ships: seq<Starship>, i: nat, j: nat)
    requires i < |c.films| && j < |MatchedAt(c, ships, i)|
    ensures 1 + j < |BlockNodes(c, films, ships, i)| && 1 + j < |BlockEdges(c, ships, i)|
    ensures BlockNodes(c, films, ships, i)[1 + j] == ShipNodeAt(FilmAngle(i, |c.films|), MatchedAt(c, ships, i), j)
    ensures BlockEdges(c, ships, i)[1 + j] == ShipEdgeAt(c.films[i], MatchedAt(c, ships, i), j)
  {
  }

  // ---------------------------------------------------------------------
  // The character node

  lemma {:induction false} NoCharacterInBlocks(c: Character, films: seq<Film>, ships: seq<Starship>, k: nat)
    requires k <= |c.films|
    ensures forall q :: 0 <= q < |NodesBefore(c, films, ships, k)| ==> !NodesBefore(c, films, ships, k)[q].id.CharacterId?
    ensures forall q :: 0 <= q < |NodesBefore(c, films, ships, k)| ==> NodesBefore(c, films, ships, k)[q].position.Polar?
  {
    if k > 0 {
      NoCharacterInBlocks(c, films, ships, k - 1);
      var prev := NodesBefore(c, films, ships, k - 1);
      var block := BlockNodes(c, films, ships, k - 1);
      assert NodesBefore(c, films, ships, k) == prev + block;
      forall q | 0 <= q < |block|
        ensures !block[q].id.CharacterId? && block[q].position.Polar?
      {
        if q > 0 {
          assert block[q] == ShipNodeAt(FilmAngle(k - 1, |c.films|), MatchedAt(c, ships, k - 1), q - 1);
        }
      }
    }
  }

  /**
   * The first node is the character, id `character.url`, at (400, 300) whatever cosine
   * and sine are; every other node is a film or a starship on a ring.
   */
  lemma CharacterNodeFirstAndOnly(c: Character, films: seq<Film>, ships: seq<Starship>, cos: real -> real, sin: real -> real)
    ensures |GraphNodes(c, films, ships)| >= 1
    ensures GraphNodes(c, films, ships)[0] == Node(CharacterId(c.url), Centre, CharacterCard(c))
    ensures Coordinates(GraphNodes(c, films, ships)[0].position, cos, sin) == (400.0, 300.0)
    ensures forall q :: 0 < q < |GraphNodes(c, films, ships)| ==>
              !GraphNodes(c, films, ships)[q].id.CharacterId? && GraphNodes(c, films, ships)[q].position.Polar?
  {
    NoCharacterInBlocks(c, films, ships, |c.films|);
    var nodes := GraphNodes(c, films, ships);
    var rest := NodesBefore(c, films, ships, |c.films|);
    forall q | 0 < q < |nodes|
      ensures !nodes[q].id.CharacterId? && nodes[q].position.Polar?
    {
      assert nodes[q] == rest[q - 1];
    }
  }

  // ---------------------------------------------------------------------
  // Edges against nodes

  /** The endpoints an edge's kind names: `{url}-film-{f}` runs from `url` to `film-f`, `film-{f}-starship-{s}` from `film-f` to `starship-s`. */
  predicate EndpointsMatchId(e: Edge) {
    match e.id
    case CharacterFilm(url, f) => e.source == CharacterId(url) && e.target == FilmId(f)
    case FilmStarship(f, s) => e.source == FilmId(f) && e.target == StarshipId(s)
  }

  /** An edge id is its source id, a dash, and its target id. */
  lemma EdgeTextJoinsEndpoints(e: Edge)
    requires EndpointsMatchId(e)
    ensures EdgeText(e.id) == NodeText(e.source) + "-" + NodeText(e.target)
  {
    match e.id
    case CharacterFilm(url, f) =>
      assert url + "-film-" + IntText(f) == url + "-" + ("film-" + IntText(f));
    case FilmStarship(f, s) =>
      assert "film-" + IntText(f) + "-starship-" + IntText(s) == ("film-" + IntText(f)) + "-" + ("starship-" + IntText(s));
  }

  /**
   * Edge `q` ends at node `q`, its endpoints agree with its id, and it starts at the
   * character (a character-to-film edge) or at an earlier node (a film-to-starship edge).
   */
  ghost predicate Aligned(ns: seq<Node>, es: seq<Edge>, url: string) {
    && |es| == |ns|
    && forall q :: 0 <= q < |es| ==>
         && es[q].target == ns[q].id
         && EndpointsMatchId(es[q])
         && (if es[q].id.CharacterFilm? then es[q].source == CharacterId(url)
             else exists p :: 0 <= p < q && es[q].source == ns[p].id)
  }

  lemma BlockAligned(c: Character, films: seq<Film>, ships: seq<Starship>, i: nat)
    requires i < |c.films|
    ensures Aligned(BlockNodes(c, films, ships, i), BlockEdges(c, ships, i), c.url)
  {
    var bn := BlockNodes(c, films, ships, i);
    var be := BlockEdges(c, ships, i);
    var m := MatchedAt(c, ships, i);
    forall t | 0 <= t < |be|
      ensures && be[t].target == bn[t].id
              && EndpointsMatchId(be[t])
              && (if be[t].id.CharacterFilm? then be[t].source == CharacterId(c.url)
                  else exists p :: 0 <= p < t && be[t].source == bn[p].id)
    {
      if t > 0 {
        assert be[t] == ShipEdgeAt(c.films[i], m, t - 1);
        assert bn[t] == ShipNodeAt(FilmAngle(i, |c.films|), m, t - 1);
        assert be[t].source == bn[0].id;
      }
    }
  }

  /** Alignment survives concatenation: the second part's earlier nodes are still earlier. */
  lemma AlignedAppend(ns1: seq<Node>, es1: seq<Edge>, ns2: seq<Node>, es2: seq<Edge>, url: string)
    requires Aligned(ns1, es1, url) && Aligned(ns2, es2, url)
    ensures Aligned(ns1 + ns2, es1 + es2, url)
  {
    var ns, es := ns1 + ns2, es1 + es2;
    forall q | 0 <= q < |es|
      ensures && es[q].target == ns[q].id
              && EndpointsMatchId(es[q])
              && (if es[q].id.CharacterFilm? then es[q].source == CharacterId(url)
                  else exists p :: 0 <= p < q && es[q].source == ns[p].id)
    {
      if q < |es1| {
        assert es[q] == es1[q] && ns[q] == ns1[q];
        if !es[q].id.CharacterFilm? {
          var p :| 0 <= p < q && es1[q].source == ns1[p].id;
          assert ns[p] == ns1[p];
        }
      } else {
        var t := q - |es1|;
        assert es[q] == es2[t] && ns[q] == ns2[t];
        if !es[q].id.CharacterFilm? {
          var p :| 0 <= p < t && es2[t].source == ns2[p].id;
          assert ns[|ns1| + p] == ns2[p];
        }
      }
    }
  }

  lemma {:induction false} BlocksAligned(c: Character, films: seq<Film>, ships: seq<Starship>, k: nat)
    requires k <= |c.films|
    ensures Aligned(NodesBefore(c, films, ships, k), EdgesBefore(c, ships, k), c.url)
  {
    if k > 0 {
      BlocksAligned(c, films, ships, k - 1);
      BlockAligned(c, films, ships, k - 1);
      var ns1, es1 := NodesBefore(c, films, ships, k - 1), EdgesBefore(c, ships, k - 1);
      var ns2, es2 := BlockNodes(c, films, ships, k - 1), BlockEdges(c, ships, k - 1);
      AlignedAppend(ns1, es1, ns2, es2, c.url);
      assert NodesBefore(c, films, ships, k) == ns1 + ns2;
      assert EdgesBefore(c, ships, k) == es1 + es2;
    }
  }

  /**
   * Edge `q` ends at node `q + 1` and starts at an earlier node: the character for a
   * character-to-film edge, the film for a film-to-starship edge. So there is one edge
   * fewer than nodes, every edge's endpoints are nodes of the output, and every edge
   * id is its source id, a dash and its target id.
   */
  lemma EdgesFollowNodes(c: Character, films: seq<Film>, ships: seq<Starship>)
    ensures |GraphEdges(c, ships)| == |GraphNodes(c, films, ships)| - 1
    ensures forall q :: 0 <= q < |GraphEdges(c, ships)| ==>
              && GraphEdges(c, ships)[q].target == GraphNodes(c, films, ships)[q + 1].id
              && EndpointsMatchId(GraphEdges(c, ships)[q])
              && EdgeText(GraphEdges(c, ships)[q].id)
                 == NodeText(GraphEdges(c, ships)[q].source) + "-" + NodeText(GraphEdges(c, ships)[q].target)
              && exists p :: 0 <= p <= q && GraphEdges(c, ships)[q].source == GraphNodes(c, films, ships)[p].id
  {
    var n := |c.films|;
    BlocksAligned(c, films, ships, n);
    var nodes := GraphNodes(c, films, ships);
    var edges := GraphEdges(c, ships);
    var rest := NodesBefore(c, films, ships, n);
    forall q | 0 <= q < |edges|
      ensures && edges[q].target == nodes[q + 1].id
              && EndpointsMatchId(edges[q])
              && EdgeText(edges[q].id) == NodeText(edges[q].source) + "-" + NodeText(edges[q].target)
              && exists p :: 0 <= p <= q && edges[q].source == nodes[p].id
    {
      assert nodes[q + 1] == rest[q];
      EdgeTextJoinsEndpoints(edges[q]);
      if edges[q].id.CharacterFilm? {
        assert edges[q].source == nodes[0].id;
      } else {
        var p :| 0 <= p < q && edges[q].source == rest[p].id;
        assert nodes[p + 1] == rest[p];
      }
    }
  }

  /** No edge dangles: both ends of every edge are ids of nodes in the output. */
  lemma EdgesConnectNodes(c: Character, films: seq<Film>, ships: seq<Starship>)
    ensures forall e :: e in GraphEdges(c, ships) ==>
              (exists p :: 0 <= p < |GraphNodes(c, films, ships)| && GraphNodes(c, films, ships)[p].id == e.source)
              && (exists p :: 0 <= p < |GraphNodes(c, films, ships)| && GraphNodes(c, films, ships)[p].id == e.target)
  {
    EdgesFollowNodes(c, films, ships);
    var nodes := GraphNodes(c, films, ships);
    var edges := GraphEdges(c, ships);
    forall e | e in edges
      ensures (exists p :: 0 <= p < |nodes| && nodes[p].id == e.source)
              && (exists p :: 0 <= p < |nodes| && nodes[p].id == e.target)
    {
      var q :| 0 <= q < |edges| && edges[q] == e;
      var p :| 0 <= p <= q && edges[q].source == nodes[p].id;
      assert nodes[q + 1].id == e.target;
    }
  }

  // ---------------------------------------------------------------------
  // Nodes by role, as the tests select them by id prefix

  /** The nodes whose id is a film id (`film-…`), in order. */
  function FilmNodes(ns: seq<Node>): seq<Node> {
    if ns == [] then []
    else (if ns[0].id.FilmId? then [ns[0]] else []) + FilmNodes(ns[1..])
  }

  /** The nodes whose id is a starship id (`starship-…`), in order. */
  function StarshipNodes(ns: seq<Node>): seq<Node> {
    if ns == [] then []
    else (if ns[0].id.StarshipId? then [ns[0]] else []) + StarshipNodes(ns[1..])
  }

  lemma {:induction false} FilmNodesAppend(a: seq<Node>, b: seq<Node>)
    ensures FilmNodes(a + b) == FilmNodes(a) + FilmNodes(b)
  {
    if a == [] {
      assert a + b == b;
    } else {
      assert (a + b)[0] == a[0];
      assert (a + b)[1..] == a[1..] + b;
      FilmNodesAppend(a[1..], b);
    }
  }

  lemma {:induction false} StarshipNodesAppend(a: seq<Node>, b: seq<Node>)
    ensures StarshipNodes(a + b) == StarshipNodes(a) + StarshipNodes(b)
  {
    if a == [] {
      assert a + b == b;
    } else {
      assert (a + b)[0] == a[0];
      assert (a + b)[1..] == a[1..] + b;
      StarshipNodesAppend(a[1..], b);
    }
  }

  lemma {:induction false} RoleFiltersOfShips(filmAngle: real, matched: seq<Starship>, from: nat)
    requires from <= |matched|
    decreases |matched| - from
    ensures FilmNodes(ShipNodes(filmAngle, matched)[from..]) == []
    ensures StarshipNodes(ShipNodes(filmAngle, matched)[from..]) == ShipNodes(filmAngle, matched)[from..]
  {
    var all := ShipNodes(filmAngle, matched);
    if from < |matched| {
      RoleFiltersOfShips(filmAngle, matched, from + 1);
      assert all[from..][1..] == all[from + 1..];
      assert all[from..][0] == ShipNodeAt(filmAngle, matched, from);
      assert all[from..] == [all[from]] + all[from + 1..];
    }
  }

  lemma BlockRoles(c: Character, films: seq<Film>, ships: seq<Starship>, i: nat)
    requires i < |c.films|
    ensures FilmNodes(BlockNodes(c, films, ships, i)) == [FilmNodeAt(c, films, i)]
    ensures |StarshipNodes(BlockNodes(c, films, ships, i))| == |MatchedAt(c, ships, i)|
  {
    var film := FilmNodeAt(c, films, i);
    var shipNodes := ShipNodes(FilmAngle(i, |c.films|), MatchedAt(c, ships, i));
    FilmNodesAppend([film], shipNodes);
    StarshipNodesAppend([film], shipNodes);
    RoleFiltersOfShips(FilmAngle(i, |c.films|), MatchedAt(c, ships, i), 0);
    assert shipNodes[0..] == shipNodes;
    assert [film][1..] == [];
    assert FilmNodes([film]) == [film];
    assert StarshipNodes([film]) == [];
  }

  /** The film nodes of the first `k` entries of the film list, one per entry. */
  function FilmNodesUpTo(c: Character, films: seq<Film>, k: nat): seq<Node>
    requires k <= |c.films|
  {
    if k == 0 then [] else FilmNodesUpTo(c, films, k - 1) + [FilmNodeAt(c, films, k - 1)]
  }

  lemma {:induction false} FilmNodesUpToAt(c: Character, films: seq<Film>, k: nat, i: nat)
    requires i < k <= |c.films|
    ensures |FilmNodesUpTo(c, films, k)| == k
    ensures FilmNodesUpTo(c, films, k)[i] == FilmNodeAt(c, films, i)
  {
    if i < k - 1 {
      FilmNodesUpToAt(c, films, k - 1, i);
    } else if k > 1 {
      FilmNodesUpToAt(c, films, k - 1, 0);
    }
  }

  lemma {:induction false} FilmNodesBefore(c: Character, films: seq<Film>, ships: seq<Starship>, k: nat)
    requires k <= |c.films|
    ensures FilmNodes(NodesBefore(c, films, ships, k)) == FilmNodesUpTo(c, films, k)
  {
    if k > 0 {
      var prev := NodesBefore(c, films, ships, k - 1);
      var block := BlockNodes(c, films, ships, k - 1);
      assert FilmNodes(prev) == FilmNodesUpTo(c, films, k - 1) by {
        FilmNodesBefore(c, films, ships, k - 1);
      }
      assert FilmNodes(block) == [FilmNodeAt(c, films, k - 1)] by {
        BlockRoles(c, films, ships, k - 1);
      }
      assert FilmNodes(prev + block) == FilmNodes(prev) + FilmNodes(block) by {
        FilmNodesAppend(prev, block);
      }
      assert NodesBefore(c, films, ships, k) == prev + block;
    }
  }

  lemma {:induction false} StarshipNodesBefore(c: Character, films: seq<Film>, ships: seq<Starship>, k: nat)
    requires k <= |c.films|
    ensures |StarshipNodes(NodesBefore(c, films, ships, k))| == ShipTotal(c, ships, k)
  {
    if k > 0 {
      var prev := NodesBefore(c, films, ships, k - 1);
      var block := BlockNodes(c, films, ships, k - 1);
      assert |StarshipNodes(prev)| == ShipTotal(c, ships, k - 1) by {
        StarshipNodesBefore(c, films, ships, k - 1);
      }
      assert |StarshipNodes(block)| == |MatchedAt(c, ships, k - 1)| by {
        BlockRoles(c, films, ships, k - 1);
      }
      assert StarshipNodes(prev + block) == StarshipNodes(prev) + StarshipNodes(block) by {
        StarshipNodesAppend(prev, block);
      }
      assert NodesBefore(c, films, ships, k) == prev + block;
    }
  }

  /**
   * Selecting the film nodes gives, in order, one node per entry of the film list,
   * repeats included, entry `i` on the film ring at angle `i/n - 1/4`; selecting the
   * starship nodes gives one per matched starship, counted film by film.
   */
  lemma NodesByRole(c: Character, films: seq<Film>, ships: seq<Starship>)
    ensures |FilmNodes(GraphNodes(c, films, ships))| == |c.films|
    ensures forall i :: 0 <= i < |c.films| ==>
              FilmNodes(GraphNodes(c, films, ships))[i]
              == Node(FilmId(c.films[i]), Polar(FilmRadius, FilmAngle(i, |c.films|)),
                      FilmCard(c.films[i], FilmTitle(films, c.films[i])))
    ensures |StarshipNodes(GraphNodes(c, films, ships))| == ShipTotal(c, ships, |c.films|)
  {
    var n := |c.films|;
    FilmNodesBefore(c, films, ships, n);
    StarshipNodesBefore(c, films, ships, n);
    FilmNodesAppend([CharacterNode(c)], NodesBefore(c, films, ships, n));
    StarshipNodesAppend([CharacterNode(c)], NodesBefore(c, films, ships, n));
    assert [CharacterNode(c)][1..] == [];
    var fs := FilmNodes(GraphNodes(c, films, ships));
    assert fs == FilmNodesUpTo(c, films, n);
    if n > 0 {
      FilmNodesUpToAt(c, films, n, 0);
    }
    forall i | 0 <= i < n
      ensures fs[i] == FilmNodeAt(c, films, i)
    {
      FilmNodesUpToAt(c, films, n, i);
    }
  }

  // ---------------------------------------------------------------------
  // Ids as written: no de-duplication, no film scoping

  /** Rendered film ids coincide exactly when the film ids do, and likewise for starships; a film id never renders like a starship id. */
  lemma NodeTextSeparatesFilmsAndShips(a: int, b: int)
    ensures NodeText(FilmId(a)) == NodeText(FilmId(b)) <==> a == b
    ensures NodeText(StarshipId(a)) == NodeText(StarshipId(b)) <==> a == b
    ensures NodeText(FilmId(a)) != NodeText(StarshipId(b))
  {
    IntTextInjective(a, b);
    if NodeText(FilmId(a)) == NodeText(FilmId(b)) {
      assert NodeText(FilmId(a))[5..] == IntText(a);
      assert NodeText(FilmId(b))[5..] == IntText(b);
    }
    if NodeText(StarshipId(a)) == NodeText(StarshipId(b)) {
      assert NodeText(StarshipId(a))[9..] == IntText(a);
      assert NodeText(StarshipId(b))[9..] == IntText(b);
    }
    assert NodeText(FilmId(a))[0] == 'f';
    assert NodeText(StarshipId(b))[0] == 's';
  }

  /**
   * A node id string names its node: a character's is its `url`, and the number
   * after the `film-` or `starship-` prefix reads back as the film or starship id.
   */
  lemma NodeTextReadsBack(id: NodeId)
    ensures id.CharacterId? ==> NodeText(id) == id.url
    ensures id.FilmId? ==> |NodeText(id)| > 5 && NodeText(id)[..5] == "film-"
                           && ParseInt(NodeText(id)[5..]) == Some(id.film)
    ensures id.StarshipId? ==> |NodeText(id)| > 9 && NodeText(id)[..9] == "starship-"
                               && ParseInt(NodeText(id)[9..]) == Some(id.ship)
  {
    match id
    case CharacterId(_) =>
    case FilmId(f) =>
      assert NodeText(id)[5..] == IntText(f);
      IntTextRoundTrip(f);
    case StarshipId(s) =>
      assert NodeText(id)[9..] == IntText(s);
      IntTextRoundTrip(s);
  }

  /** Where two integer texts followed by a dash-led separator agree, the first is no shorter. */
  lemma SeparatorNotEarlier(a: string, b: string, c: string, d: string, sep: string)
    requires IntShaped(a) && IntShaped(c) && |sep| >= 1 && sep[0] == '-'
    requires a + sep + b == c + sep + d
    ensures |a| >= |c|
  {
    assert (a + sep + b)[|a|] == '-';
    assert forall i :: 1 <= i < |c| ==> (c + sep + d)[i] == c[i];
  }

  /** Dropping a prefix off a concatenation leaves the rest. */
  lemma DropPrefix<T>(p: seq<T>, x: seq<T>, y: seq<T>, z: seq<T>)
    ensures (p + x + y + z)[|p|..] == x + y + z
  {
  }

  /** Two integer texts joined by a separator that starts with a dash split back apart uniquely. */
  lemma SplitAtSeparator(a: string, b: string, c: string, d: string, sep: string)
    requires IntShaped(a) && IntShaped(c) && |sep| >= 1 && sep[0] == '-'
    requires a + sep + b == c + sep + d
    ensures a == c && b == d
  {
    SeparatorNotEarlier(a, b, c, d, sep);
    SeparatorNotEarlier(c, d, a, b, sep);
    var all := a + sep + b;
    assert a == all[..|a|] && c == (c + sep + d)[..|c|];
    assert b == all[|a| + |sep|..] && d == (c + sep + d)[|c| + |sep|..];
  }

  /** `film-{f}-starship-{s}` determines both `f` and `s`. */
  lemma FilmStarshipTextInjective(f1: int, s1: int, f2: int, s2: int)
    ensures EdgeText(FilmStarship(f1, s1)) == EdgeText(FilmStarship(f2, s2)) <==> f1 == f2 && s1 == s2
  {
    if EdgeText(FilmStarship(f1, s1)) == EdgeText(FilmStarship(f2, s2)) {
      var sep := "-starship-";
      var a, b, c, d := IntText(f1), IntText(s1), IntText(f2), IntText(s2);
      DropPrefix("film-", a, sep, b);
      DropPrefix("film-", c, sep, d);
      IntTextShaped(f1);
      IntTextShaped(f2);
      SplitAtSeparator(a, b, c, d, sep);
      IntTextInjective(f1, f2);
      IntTextInjective(s1, s2);
    }
  }

  /** For one character, `{url}-film-{f}` determines `f`. */
  lemma CharacterFilmTextInjective(url: string, f1: int, f2: int)
    ensures EdgeText(CharacterFilm(url, f1)) == EdgeText(CharacterFilm(url, f2)) <==> f1 == f2
  {
    if EdgeText(CharacterFilm(url, f1)) == EdgeText(CharacterFilm(url, f2)) {
      assert EdgeText(CharacterFilm(url, f1))[|url| + 6..] == IntText(f1);
      assert EdgeText(CharacterFilm(url, f2))[|url| + 6..] == IntText(f2);
      IntTextInjective(f1, f2);
    }
  }

  /**
   * Edge id strings tell edges apart: two film-to-starship edges have the same id
   * exactly when they join the same film and starship ids, and two of a
   * character's film edges have the same id exactly when they reach the same film id.
   */
  lemma EdgeTextInjective(url: string, f1: int, s1: int, f2: int, s2: int)
    ensures EdgeText(FilmStarship(f1, s1)) == EdgeText(FilmStarship(f2, s2)) <==> f1 == f2 && s1 == s2
    ensures EdgeText(CharacterFilm(url, f1)) == EdgeText(CharacterFilm(url, f2)) <==> f1 == f2
  {
    FilmStarshipTextInjective(f1, s1, f2, s2);
    CharacterFilmTextInjective(url, f1, f2);
  }

  /** A film id listed twice yields two film nodes with the same id, at two different angles. */
  lemma RepeatedFilmRepeatsNode(c: Character, films: seq<Film>, ships: seq<Starship>, i1: nat, i2: nat)
    requires i1 < i2 < |c.films| && c.films[i1] == c.films[i2]
    ensures var p1, p2 := 1 + BlockStart(c, ships, i1), 1 + BlockStart(c, ships, i2);
            && p1 < p2 < |GraphNodes(c, films, ships)|
            && GraphNodes(c, films, ships)[p1].id == GraphNodes(c, films, ships)[p2].id == FilmId(c.films[i1])
            && GraphNodes(c, films, ships)[p1].position != GraphNodes(c, films, ships)[p2].position
  {
    FilmPlacement(c, films, ships, i1);
    FilmPlacement(c, films, ships, i2);
    ShipTotalMonotone(c, ships, i1, i2);
    FilmAnglesDistinct(i1, i2, |c.films|);
  }

  /**
   * A starship matched by two film entries yields two nodes with the same id
   * `starship-{id}`, reached by edges whose ids differ exactly when the two film ids do.
   */
  lemma SharedShipRepeatsNode(c: Character, films: seq<Film>, ships: seq<Starship>, i1: nat, j1: nat, i2: nat, j2: nat)
    requires i1 < i2 < |c.films|
    requires j1 < |MatchedAt(c, ships, i1)| && j2 < |MatchedAt(c, ships, i2)|
    requires MatchedAt(c, ships, i1)[j1].id == MatchedAt(c, ships, i2)[j2].id
    ensures var p1, p2 := 2 + BlockStart(c, ships, i1) + j1, 2 + BlockStart(c, ships, i2) + j2;
            && p1 < p2 < |GraphNodes(c, films, ships)|
            && GraphNodes(c, films, ships)[p1].id == GraphNodes(c, films, ships)[p2].id
    ensures var q1, q2 := 1 + BlockStart(c, ships, i1) + j1, 1 + BlockStart(c, ships, i2) + j2;
            && q1 < q2 < |GraphEdges(c, ships)|
            && (GraphEdges(c, ships)[q1].id == GraphEdges(c, ships)[q2].id <==> c.films[i1] == c.films[i2])
  {
    ShipPlacement(c, films, ships, i1, j1);
    ShipPlacement(c, films, ships, i2, j2);
    ShipTotalMonotone(c, ships, i1 + 1, i2);
  }

  // ---------------------------------------------------------------------
  // A worked scenario

  /**
   * Films [10, 20]; starships 1 and 2 in film 10, starship 3 in film 20: six nodes and
   * five edges; film 10 straight up; starships 1 and 2 mirror each other about it;
   * starship 3, alone, sits an eighth of pi before film 20.
   */
  lemma TwoFilmsThreeShips()
    ensures var c := Character("people/1", "Luke", [10, 20]);
            var films := [Film(10, "Film A"), Film(20, "Film B")];
            var ships := [Starship(1, "X", [10]), Starship(2, "Y", [10]), Starship(3, "Z", [20])];
            var nodes := GraphNodes(c, films, ships);
            && |nodes| == 6 && |GraphEdges(c, ships)| == 5
            && nodes[1] == Node(FilmId(10), Polar(350.0, -0.25), FilmCard(10, Named("Film A")))
            && nodes[2].position == Polar(800.0, -0.25 - 0.0625)
            && nodes[3].position == Polar(800.0, -0.25 + 0.0625)
            && nodes[4] == Node(FilmId(20), Polar(350.0, 0.25), FilmCard(20, Named("Film B")))
            && nodes[5].position == Polar(800.0, 0.25 - 0.0625)
  {
    var c := Character("people/1", "Luke", [10, 20]);
    var films := [Film(10, "Film A"), Film(20, "Film B")];
    var ships := [Starship(1, "X", [10]), Starship(2, "Y", [10]), Starship(3, "Z", [20])];
    ShipsInFilmAppend([ships[0]], ships[1..], 10);
    ShipsInFilmAppend([ships[1]], ships[2..], 10);
    ShipsInFilmAppend([ships[0]], ships[1..], 20);
    ShipsInFilmAppend([ships[1]], ships[2..], 20);
    assert ships[2..][1..] == [];
    assert MatchedAt(c, ships, 0) == [ships[0], ships[1]];
    assert MatchedAt(c, ships, 1) == [ships[2]];
    assert FilmTitle(films, 10) == Named("Film A");
    assert films[1..] == [Film(20, "Film B")];
    assert FilmTitle(films, 20) == Named("Film B");
    FilmPlacement(c, films, ships, 0);
    FilmPlacement(c, films, ships, 1);
    ShipPlacement(c, films, ships, 0, 0);
    ShipPlacement(c, films, ships, 0, 1);
    ShipPlacement(c, films, ships, 1, 0);
    GraphSize(c, films, ships);
    ShipArcEnds(-0.25, 2);
  }
}
