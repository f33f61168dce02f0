/**
 * The catalog records the graph is built from (src/interfaces.ts). Only the
 * fields the core reads are kept (plus the name of a character and of a
 * starship); every other attribute of the records is dropped.
 */
module Entities {

  /** ICharacter: `films` is the ordered list of film ids the character appears in. */
  datatype Character = Character(url: string, name: string, films: seq<int>)

  /** IFilm */
  datatype Film = Film(id: int, title: string)

  /** IStarship: `films` lists the ids of the films the starship appears in. */
  datatype Starship = Starship(id: int, name: string, films: seq<int>)
}
