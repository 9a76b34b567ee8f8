/**
  The backend's in-memory document store: signed documents kept under an identifier
  until they are fetched. The service object owns one table that `storeDocument` and
  `removeDocument` update in place.
 */
module DocumentStorage {
  import opened Wrappers
  import opened Text

  /** A stored document and the time it was stored, in milliseconds since the epoch. */
  datatype StoredDocument = StoredDocument(data: seq<Byte>, filename: string, contentType: string, timestamp: int)

  type Table = map<string, StoredDocument>

  /** The table after `put(documentId, document)`. */
  function Put(table: Table, documentId: string, document: StoredDocument): (t: Table)
    ensures t.Keys == table.Keys + {documentId}
  {
    table[documentId := document]
  }

  /** The table after `remove(documentId)`. */
  function Remove(table: Table, documentId: string): (t: Table)
    ensures t.Keys == table.Keys - {documentId}
  {
    table - {documentId}
  }

  /** `get(documentId)`: the document, or `None` where Java returns null. */
  function Lookup(table: Table, documentId: string): (r: Option<StoredDocument>)
    ensures r.Some? <==> documentId in table
  {
    if documentId in table then Some(table[documentId]) else None
  }

  /** A stored document is what a later lookup of its identifier finds; other identifiers
      find what they found before. */
  lemma LookupAfterPut(table: Table, documentId: string, document: StoredDocument, other: string)
    ensures Lookup(Put(table, documentId, document), other) ==
      if other == documentId then Some(document) else Lookup(table, other)
  {
  }

  /** A removed identifier finds nothing; other identifiers find what they found before. */
  lemma LookupAfterRemove(table: Table, documentId: string, other: string)
    ensures Lookup(Remove(table, documentId), other) ==
      if other == documentId then None else Lookup(table, other)
  {
  }

  /** Storing twice under one identifier keeps only the second document. */
  lemma PutReplaces(table: Table, documentId: string, first: StoredDocument, second: StoredDocument)
    ensures Put(Put(table, documentId, first), documentId, second) == Put(table, documentId, second)
  {
  }

  /** Removing a document stored under a fresh identifier gives back the old table. */
  lemma RemoveUndoesPut(table: Table, documentId: string, document: StoredDocument)
    requires documentId !in table
    ensures Remove(Put(table, documentId, document), documentId) == table
  {
  }

  class DocumentStorageService {
    var documentStorage: Table

    constructor()
      ensures documentStorage == map[]
    {
      documentStorage := map[];
    }

    /** `storeDocument`: `now` is the clock reading taken when the document is stored. */
    method StoreDocument(documentId: string, data: seq<Byte>, filename: string, contentType: string, now: int)
      modifies this
      ensures documentStorage == Put(old(documentStorage), documentId, StoredDocument(data, filename, contentType, now))
    {
      var storedDoc := StoredDocument(data, filename, contentType, now);
      documentStorage := documentStorage[documentId := storedDoc];
    }

    /** `getDocument`. */
    method GetDocument(documentId: string) returns (document: Option<StoredDocument>)
      ensures document == Lookup(documentStorage, documentId)
    {
      if documentId in documentStorage {
        document := Some(documentStorage[documentId]);
      } else {
        document := None;
      }
    }

    /** `documentExists`: true exactly when `getDocument` finds something. */
    method DocumentExists(documentId: string) returns (present: bool)
      ensures present <==> Lookup(documentStorage, documentId).Some?
    {
      present := documentId in documentStorage;
    }

    /** `removeDocument`: removing an absent identifier changes nothing. */
    method RemoveDocument(documentId: string)
      modifies this
      ensures documentStorage == Remove(old(documentStorage), documentId)
      ensures documentId !in old(documentStorage) ==> documentStorage == old(documentStorage)
    {
      documentStorage := documentStorage - {documentId};
    }
  }
}
