# Star Wars character graph — a Dafny model

A React application browses Star Wars characters one at a time. For the current
character it draws a radial graph:

- the character sits at the centre;
- each film the character appears in sits on a ring around it;
- each starship that appears in that film sits on an outer ring, inside a small
  arc centred on the film.

Edges join the character to each film and each film to its starships. A
catalog of starships is also offered, ten per page.

This project models the parts of the application that compute something and
proves what they promise:

- **`Graph`** (`graph.dfy`) — `NodeGenerator`, which builds the node and edge
  lists. `Graph.Generate` is an imperative method with the source's two nested
  loops. It is proved equal to the specification functions
  `GraphNodes`/`GraphEdges`, which describe the output block by block: one
  block per film entry, holding the film node followed by its matched
  starships.
- **`GraphProps`** (`graph_props.dfy`) — what the output is:
  - its size;
  - where every film and starship node lands, and which edge reaches it;
  - the role of each node;
  - that no edge dangles, and that edge ids are formed from their endpoints;
  - the title fallback;
  - how repeated film ids and shared starships behave.
- **`Layout`** (`layout.dfy`) — the geometry. Angles are exact reals measured in
  turns: `2*pi*i/n - pi/2` radians is `i/n - 1/4`, and the arc `pi/4` is
  `1/8`. A node's position records its ring and angle. `Coordinates` turns a
  position into x and y for whatever cosine and sine it is given.
- **`Render`** (`render.dfy`) — decimal rendering of integers, which is what the
  id template literals use. Its parse round trip gives injectivity.
- **`CharacterFlow`** (`character_flow.dfy`) — the effect that picks
  `characters[currentPage - 1]` and replaces the shown graph. It is a class
  `FlowView` whose `nodes`/`edges` fields the effect overwrites.
- **`StarshipPaging`** (`starship_paging.dfy`) — the `useFetchStarships` hook as
  a class `StarshipCatalog`. It covers:
  - the initial state;
  - `goToPage`;
  - the transitions of `loadStarships` once the fetch has settled;
  - `getPaginatedStarships` and `totalPages` as functions.
- **`CharacterLoader`** (`character_loader.dfy`) — the `useFetchCharacters` hook
  as a class `Loader`. It has a ghost history of the pages appended so far, and
  an invariant `Valid()` that ties `characters`, `page` and `hasMore` to that
  history.
- **`Paging`** (`paging.dfy`) — `Math.ceil(a / b)` on naturals and JavaScript's
  `Array.prototype.slice` clamping.
- **`Entities`**, **`Wrappers`** — the records (`Character`, `Film`,
  `Starship`) and `Option`.

Two inputs are modelled as values:

- A settled promise is a parameter of the transition that consumes it:
  `StarshipFetch`, or `Option<CharacterPage>`, where `None` stands for a `null`
  response.
- A thrown value that is not an `Error` is `Thrown.OtherValue`.

### Behaviour of the code worth knowing

1. **Repeated film ids are not removed.** A film id listed twice gives two film
   nodes with the same id at two angles (`GraphProps.RepeatedFilmRepeatsNode`).
2. **Starship node ids are not scoped by film.** The id is `starship-{id}`, so
   a starship shared by two films gives two nodes with one id
   (`GraphProps.SharedShipRepeatsNode`).
3. **A lone starship does not sit on its film's angle.** With one starship the
   divisor falls back from 0 to 1, so the starship sits at the start of the
   arc, an eighth of pi before the film (`Layout.LoneShipAtArcStart`).
4. **An empty film title falls back too.** A film whose catalog entry has an
   empty title is shown as `Film {id}`, because the fallback is JavaScript's
   `||` (`GraphProps.FilmTitleFound`).
5. **An empty `next` stops loading.** `hasMore` of the character loader is
   `!!response.next`, so an empty `next` string counts as no next page
   (`CharacterLoader.Loader.NoMoreAfterLastPage`).

## Model

| member | source | states |
|---|---|---|
| Graph.Generate | src/components/Nodes/NodeGenerator.tsx:27-121 | The imperative node and edge loops return exactly `GraphNodes`/`GraphEdges`: the character node, then for each film entry in order its node and, after it, its matched starships; each edge is pushed alongside its target. |
| Graph.FilmTitle | src/components/Nodes/NodeGenerator.tsx:58-59 | A catalog title is used only when it is non-empty and belongs to a film with that id. Otherwise the title is the placeholder for that same id, and a film id missing from the catalog always gets the placeholder. |
| Graph.FindFilm | src/components/Nodes/NodeGenerator.tsx:59 | `films.find(f => f.id === filmId)` finds something exactly when some catalog film has that id, and what it finds is a catalog film with that id. |
| Graph.ShipsInFilm | src/components/Nodes/NodeGenerator.tsx:84-86 | The filter keeps exactly the catalog starships whose `films` include the film id, and never yields more starships than the catalog holds. |
| GraphProps.ShipsInFilmAppend | src/components/Nodes/NodeGenerator.tsx:84-86 | Filtering a concatenation is concatenating the filtered parts, so the filter keeps catalog order. |
| GraphProps.ShipsInFilmSingle | src/components/Nodes/NodeGenerator.tsx:84-86 | A one-starship catalog keeps its starship exactly when the starship lists the film. |
| GraphProps.FindFilmIsFirst | src/components/Nodes/NodeGenerator.tsx:59 | With several catalog films sharing an id, `find` returns the first of them. |
| GraphProps.FilmTitleFound | src/components/Nodes/NodeGenerator.tsx:58-59 | A film node's title is the first matching film's title, or `Film {id}` when that title is the empty string. |
| GraphProps.FilmTitleDangling | src/components/Nodes/NodeGenerator.tsx:58-59 | A film id missing from the catalog still gets a node, titled `Film {id}`. |
| GraphProps.DanglingFilmNinetyNine | src/components/Nodes/NodeGenerator.tsx:58-59 | Concretely, film 99 with an empty catalog is titled "Film 99". |
| GraphProps.GraphSize | src/components/Nodes/NodeGenerator.tsx:50-116 | There are 1 + (film entries) + (sum over entries of matched starships) nodes, and one edge fewer. |
| GraphProps.NoFilmsOnlyCharacter | src/components/Nodes/NodeGenerator.tsx:50-53 | A character without films yields exactly its own node and no edges. |
| GraphProps.NoStarshipsStar | src/components/Nodes/NodeGenerator.tsx:53-86 | With an empty starship catalog the graph is a star: the character, one node per film entry, and edge `q` joins the character to film entry `q`. |
| GraphProps.FilmPlacement | src/components/Nodes/NodeGenerator.tsx:54-81 | Film entry `i` is at node index `1 + BlockStart(i)`. It has id `film-{id}`, sits on the film ring (350) at angle `i/n - 1/4`, and is titled by the lookup. The character-to-film edge at index `BlockStart(i)` has id `{url}-film-{id}` and joins `url` to it. |
| GraphProps.ShipPlacement | src/components/Nodes/NodeGenerator.tsx:88-115 | Matched starship `j` of film entry `i` is at node index `2 + BlockStart(i) + j`. It has id `starship-{id}` and sits on the starship ring (800) at the arc angle of its film's angle. The film-to-starship edge at index `1 + BlockStart(i) + j` joins `film-{filmId}` to it. |
| GraphProps.CharacterNodeFirstAndOnly | src/components/Nodes/NodeGenerator.tsx:43-50 | The first node is the character, with id `character.url`, at (400, 300) whatever cosine and sine are. No later node is a character node, and every later node is on a ring. |
| GraphProps.EdgeTextJoinsEndpoints | src/components/Nodes/NodeGenerator.tsx:75-115 | Every edge id the generator forms is its source id, a dash, and its target id. |
| GraphProps.EdgesFollowNodes | src/components/Nodes/NodeGenerator.tsx:72-115 | Edges are one fewer than nodes. Edge `q` targets node `q + 1`, its id is `{source}-{target}`, and its source is node `p` for some `p <= q`. |
| GraphProps.EdgesConnectNodes | src/components/Nodes/NodeGenerator.tsx:75-115 | No edge dangles: the source and the target of every edge are ids of nodes in the output. |
| GraphProps.NodesByRole | src/components/Nodes/NodeGenerator.tsx:54-106 | The film nodes, in order, are one per film entry, with repeats. Entry `i` sits at angle `i/n - 1/4` and carries its looked-up title. The starship nodes number the total of matched starships. |
| GraphProps.NodeTextSeparatesFilmsAndShips | src/components/Nodes/NodeGenerator.tsx:63-97 | The `film-{id}` strings are equal exactly when the ids are, and likewise for `starship-{id}`. A film id string never equals a starship id string. |
| GraphProps.RepeatedFilmRepeatsNode | src/components/Nodes/NodeGenerator.tsx:54-72 | A film id listed twice yields two film nodes with the same id, at different positions. |
| GraphProps.SharedShipRepeatsNode | src/components/Nodes/NodeGenerator.tsx:84-115 | A starship matched by two film entries yields two nodes with the same id. The edges reaching them have equal ids exactly when the two film ids are equal. |
| GraphProps.TwoFilmsThreeShips | src/components/Nodes/NodeGenerator.tsx:27-121 | Two films with three starships (two in the first film, one in the second) give six nodes and five edges. Film 10 is straight up and its two starships mirror each other about it. The lone starship of film 20 sits an eighth of pi before the film. |
| Layout.Coordinates | src/components/Nodes/NodeGenerator.tsx:46 | The centre position is (400, 300) whatever cosine and sine are. |
| Layout.ShipDivisor | src/components/Nodes/NodeGenerator.tsx:93 | The spacing divisor, `filmStarships.length - 1` falling back to 1 when zero, is never zero: it is `length - 1` from two starships up, and 1 otherwise. |
| Layout.FirstFilmPointsUp | src/components/Nodes/NodeGenerator.tsx:56-57 | The first film is at `-pi/2`, straight up on a screen whose y grows downwards. |
| Layout.FilmAngleStep | src/components/Nodes/NodeGenerator.tsx:56-57 | Consecutive films are `2*pi/n` apart. |
| Layout.FilmAnglesDistinct | src/components/Nodes/NodeGenerator.tsx:56-57 | Two film entries are strictly between 0 and one full turn apart, so they never share a point of the ring. |
| Layout.FilmAngle | src/components/Nodes/NodeGenerator.tsx:56-57 | The angle of film entry `i` of `n` (`2*pi*i/n - pi/2`) lies in `[-pi/2, 3*pi/2)`: the films go once around the circle, starting straight up. |
| Layout.ShipArcEnds | src/components/Nodes/NodeGenerator.tsx:90-93 | With two or more starships, the first sits at `angle - pi/8` and the last at `angle + pi/8`. |
| Layout.ShipAngleStep | src/components/Nodes/NodeGenerator.tsx:90-93 | Starships are evenly spaced, `(pi/4)/(m - 1)` apart. |
| Layout.ShipAnglesSymmetric | src/components/Nodes/NodeGenerator.tsx:90-93 | Starship `j` and starship `m - 1 - j` mirror each other about their film's angle. |
| Layout.ShipAngle | src/components/Nodes/NodeGenerator.tsx:90-93 | Every starship angle lies within `pi/8` of its film's angle, inside the arc of size `pi/4`. |
| Layout.LoneShipAtArcStart | src/components/Nodes/NodeGenerator.tsx:90-93 | A lone starship sits at `angle - pi/8`, not on its film's angle. |
| Render.IntTextRoundTrip | src/components/Nodes/NodeGenerator.tsx:63 | Reading back the decimal text that a template literal gives an integer yields that integer. |
| Render.IntText | src/components/Nodes/NodeGenerator.tsx:63 | The text of an integer in a template literal is never empty, and it starts with a minus sign exactly when the integer is negative. |
| GraphProps.NodeTextReadsBack | src/components/Nodes/NodeGenerator.tsx:44-97 | A node id string names its node. A character's id is its `url`. After the `film-` or `starship-` prefix, the rest of the id reads back as the film or starship id. |
| GraphProps.EdgeTextInjective | src/components/Nodes/NodeGenerator.tsx:76-110 | Two film-to-starship edge ids are equal exactly when both the film ids and the starship ids are. Two of one character's film edge ids are equal exactly when the film ids are. |
| Render.IntTextInjective | src/components/Nodes/NodeGenerator.tsx:97 | Two integers have the same decimal text exactly when they are equal. |
| CharacterFlow.SelectCharacter | src/components/CharacterFlow.tsx:33-42 | A character is selected exactly when `currentPage - 1` is an index of the list, and it is the character at that index. |
| CharacterFlow.FlowView.constructor | src/components/CharacterFlow.tsx:28-29 | The canvas starts with no nodes and no edges. |
| CharacterFlow.FlowView.Refresh | src/components/CharacterFlow.tsx:32-55 | An out-of-range page clears both lists. Otherwise the lists become exactly the generated graph of the selected character, and nothing of the previous graph survives. |
| CharacterFlow.EveryOfferedPageShowsItsCharacter | src/components/CharacterCard.tsx:28 | Every page the pagination offers (1 to `ceil(length / 1)`) selects a character, and its graph starts with that character's node. |
| Paging.CeilDiv | src/hooks/useFetchStarships.tsx:44 | `Math.ceil(a / b)` is the least `r` with `r * b >= a`. |
| Paging.Slice | src/hooks/useFetchStarships.tsx:27 | `slice(start, end)` has `min(end, length) - start` elements, or none, and element `k` is element `start + k` of the list. |
| Paging.CeilDivByOne | src/components/CharacterCard.tsx:13-28 | With one character per page, the page count is the number of characters. |
| StarshipPaging.PageOf | src/hooks/useFetchStarships.tsx:24-28 | A page holds at most ten starships. Element `k` of page `p` is element `(p - 1) * 10 + k` of the list. |
| StarshipPaging.TotalPages | src/hooks/useFetchStarships.tsx:61 | `totalPages` is the fewest pages of ten that hold all the starships. |
| StarshipPaging.StarshipCatalog.Visible | src/hooks/useFetchStarships.tsx:55 | The `starships` the hook returns are at most ten, and they are non-empty exactly when the current page is at most `totalPages`. |
| StarshipPaging.ErrorText | src/hooks/useFetchStarships.tsx:37 | An `Error`'s message is recorded unchanged. The recorded text is empty only when an `Error` with an empty message was thrown. |
| StarshipPaging.PagesCoverList | src/hooks/useFetchStarships.tsx:61 | Reading pages 1 to `totalPages` in turn gives the whole list once, in order. |
| StarshipPaging.PageNonEmptyIffCounted | src/hooks/useFetchStarships.tsx:24-28 | Page `p` shows something exactly when `p <= totalPages`. |
| StarshipPaging.FifteenStarships | src/hooks/useFetchStarships.tsx:22 | Fifteen starships make two pages, of ten and five. |
| StarshipPaging.StarshipCatalog.constructor | src/hooks/useFetchStarships.tsx:17-21 | The hook starts with no starships, loading, no error, page 1 and `hasMore`. It shows nothing and counts zero pages. |
| StarshipPaging.StarshipCatalog.GoToPage | src/hooks/useFetchStarships.tsx:43-48 | The page changes to `newPage` exactly when `1 <= newPage <= totalPages`. Nothing else changes. |
| StarshipPaging.StarshipCatalog.LoadStarships | src/hooks/useFetchStarships.tsx:30-41 | Success replaces the list, sets `hasMore` to `length > 10` and keeps the error. Failure keeps the list, sets the error to the `Error`'s message or "An error occurred". Either way loading ends and the page is kept. |
| CharacterLoader.Loader.constructor | src/hooks/useFetchCharacters.tsx:6-10 | The hook starts with no characters, loading, no error, page 1 and `hasMore`, having received no pages. |
| CharacterLoader.Loader.LoadMore | src/hooks/useFetchCharacters.tsx:12-29 | With `hasMore` false nothing changes but loading ends. A response appends its results, sets `hasMore` to `!!next` and advances the page by one. A null response records "Failed to fetch characters" and changes nothing else. The history invariant is kept. |
| CharacterLoader.Loader.NoMoreAfterLastPage | src/hooks/useFetchCharacters.tsx:22 | Once pages have been received, `hasMore` holds exactly when the last page's `next` is neither null nor the empty string. |
| CharacterLoader.Loader.LoadedCount | src/hooks/useFetchCharacters.tsx:18-23 | The number of characters loaded is the sum of the result counts of the pages received, and `page` is one more than the number of pages received. |
| CharacterLoader.FlattenLength | src/hooks/useFetchCharacters.tsx:18-21 | Appending pages in turn loads as many characters as the pages hold together. |

## Left out

- Rendering is not modelled: JSX, the `CharacterNode`/`FilmNode`/`StarshipNode`
  components, styles, and the node `type` and edge `type` fields. A node's
  `data.label` is modelled as the record it renders (`Payload`).
- Floating point and `Math.cos`/`Math.sin` are not modelled. Angles are exact
  reals in turns, and cosine and sine are parameters of `Layout.Coordinates`.
  Rounding of the computed coordinates is not captured.
- The network calls (`fetchAllStarships`, `fetchCharacters` in `src/api/api.ts`)
  are not modelled. Their settled outcome is a parameter of the transition.
- `useFetchFilms` and the pagination component are not modelled.
- React scheduling is not modelled:
  - when effects re-run;
  - batching of state updates;
  - the `setLoading(true)` intermediate state before an `await`.

  Each hook call is modelled as one atomic transition from the state before it
  to the state after it.
- `CharacterLoader.Loader.LoadMore` applies the functional updaters
  (`setCharacters(prev => ...)`, `setPage(prev => prev + 1)`) to the state the
  call started from. Interleaving of two concurrent calls is not modelled.
- CharacterLoader.Loader.LoadMore: its null-response case is only the
  atomic-step reading. The real hook, given a `null` response, has already queued
  a `setCharacters` updater that reads `response.results`. React runs that
  updater during the next render, where it throws outside the `try`, and no
  error boundary catches it. The model stops at the state the `catch` leaves:
  the error is set and nothing else changes.
- Render.IntText: ids are JavaScript numbers, but the model takes them as
  unbounded integers rendered in plain decimal. That matches `${id}` only for
  integers of magnitude below 1e21, since `${1e21}` is "1e+21". Integers beyond
  2^53 are not distinct numbers at all. So `Render.IntTextInjective`,
  `GraphProps.NodeTextReadsBack` and `GraphProps.EdgeTextInjective` hold of the
  model's rendering, not of `${}` on every number.
- The `character.films &&` guard of `NodeGenerator`, under which an absent
  `films` field yields just the character node, has no counterpart, because
  `Character.films` is a sequence and never absent.
- The `!characters` and `!currentCharacter` null checks of `CharacterFlow` have
  no counterpart: a sequence is never null, and an in-range index always holds
  a character.
- Character fields other than `url`, `name` and `films` are left out, because
  the graph uses no others. The same holds for film fields other than `id` and
  `title`, and starship fields other than `id`, `name` and `films`.
- Ids are modelled as structured values (`NodeId`, `EdgeId`). Their string
  form is given by `NodeText`/`EdgeText`. `url` strings are not parsed, so a
  `url` that itself looks like `film-…` is not considered.
