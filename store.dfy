/**
 * The in-memory knowledge store (lib/store.ts): one map from book id to the
 * knowledge pack ingestion built for it, shared by the whole server.
 */
module Store {
  import opened Wrappers
  import opened Types

  /** `store.get(bookId)` on the map's value. */
  function Get(books: map<string, BookKnowledge>, bookId: string): Option<BookKnowledge> {
    if bookId in books then Some(books[bookId]) else None
  }

  class KnowledgeStore {
    var books: map<string, BookKnowledge>

    /** The store starts empty: no key has been set. */
    constructor()
      ensures books == map[]
    {
      books := map[];
    }

    /** `getKnowledge(bookId)` */
    method GetKnowledge(bookId: string) returns (r: Option<BookKnowledge>)
      ensures r.Some? <==> bookId in books
      ensures r.Some? ==> r.value == books[bookId]
    {
      if bookId in books {
        r := Some(books[bookId]);
      } else {
        r := None;
      }
    }

    /** `setKnowledge(bookId, knowledge)` */
    method SetKnowledge(bookId: string, knowledge: BookKnowledge)
      modifies this
      ensures books == old(books)[bookId := knowledge]
    {
      books := books[bookId := knowledge];
    }

    /** `hasKnowledge(bookId)` */
    method HasKnowledge(bookId: string) returns (b: bool)
      ensures b <==> Get(books, bookId).Some?
    {
      b := bookId in books;
    }
  }

  /** A key that was never set reads as absent. */
  lemma NeverSet(bookId: string)
    ensures Get(map[], bookId) == None
  {
  }

  /** Reading a key right after writing it gives what was written. */
  lemma GetAfterSet(books: map<string, BookKnowledge>, bookId: string, k: BookKnowledge)
    ensures Get(books[bookId := k], bookId) == Some(k)
  {
  }

  /** Writing one key leaves every other key as it was. */
  lemma SetLeavesOthers(books: map<string, BookKnowledge>, bookId: string, k: BookKnowledge, other: string)
    requires other != bookId
    ensures Get(books[bookId := k], other) == Get(books, other)
  {
  }

  /** Of two writes to the same key, the last one wins. */
  lemma LastWriteWins(books: map<string, BookKnowledge>, bookId: string, k1: BookKnowledge, k2: BookKnowledge)
    ensures books[bookId := k1][bookId := k2] == books[bookId := k2]
  {
  }
}
