/** The part of the vector database's client the ingestion uses: named collections of
    records keyed by id, with get, add and delete. The embedding vectors are opaque values
    produced by the caller's encoder. */
module VectorStore {
  import opened Segmenter

  /** An embedding vector, as the encoder returns it. */
  type Embedding = seq<real>

  /** A stored chunk: its document text, its embedding and its metadata. */
  datatype Record = Record(document: string, embedding: Embedding, metadata: Metadata)

  /** A collection maps each id to its record. */
  type Collection = map<string, Record>

  /** A persistent client: every collection it holds, by name. */
  class Store {
    var collections: map<string, Collection>

    constructor (initial: map<string, Collection>)
      ensures collections == initial
    {
      collections := initial;
    }

    /** delete_collection: removes the collection; reports whether there was one (the
        client raises when there is none). */
    method DeleteCollection(name: string) returns (existed: bool)
      modifies this
      ensures existed == (name in old(collections))
      ensures collections == old(collections) - {name}
    {
      existed := name in collections;
      collections := collections - {name};
    }

    /** get_or_create_collection: an existing collection is kept as it is; a missing one is
        created empty. */
    method GetOrCreateCollection(name: string)
      modifies this
      ensures name in collections
      ensures collections == if name in old(collections) then old(collections) else old(collections)[name := map[]]
    {
      if name !in collections {
        collections := collections[name := map[]];
      }
    }

    /** collection.get(ids=[id])['documents']: the stored document of that id, or nothing. */
    method GetDocuments(name: string, id: string) returns (documents: seq<string>)
      requires name in collections
      ensures |documents| <= 1
      ensures documents == [] <==> id !in collections[name]
      ensures id in collections[name] ==> documents == [collections[name][id].document]
    {
      var records := collections[name];
      if id in records {
        documents := [records[id].document];
      } else {
        documents := [];
      }
    }

    /** collection.add of one record: an id that is already stored keeps its record. */
    method Add(name: string, id: string, record: Record)
      requires name in collections
      modifies this
      ensures collections ==
                old(collections)[name := if id in old(collections)[name] then old(collections)[name]
                                         else old(collections)[name][id := record]]
    {
      var records := collections[name];
      if id !in records {
        collections := collections[name := records[id := record]];
      }
    }
  }
}
