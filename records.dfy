/** The two records the extension keeps in its synchronised storage. */
module Records {

  /**
   * An entry of the `blockedSites` list: `id` is the creation timestamp,
   * `url` the pattern as entered, `name` its display label.
   */
  datatype BlockedSite = BlockedSite(id: int, url: string, name: string, addedDate: string, blockedCount: int)

  /** An entry of the `flashcards` list. */
  datatype Flashcard = Flashcard(id: int, front: string, back: string, category: string)
}
