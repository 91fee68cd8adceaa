/**
 The records of a graph index.

 A record's id is a hash of the parts listed in its `Key`; hashing is taken to be injective,
 so keys stand for ids.
 */
module GraphModel {
  /** Document, document version and chunk ids. */
  type Id = int

  /** A name and its case-folded form, which decides the entity it denotes. */
  datatype Name = Name(folded: nat, spelling: nat)

  datatype Key =
    | EntityKey(folded: nat)
    | MentionKey(chunk: Id, name: Name, position: nat)
    | FactKey(version: Id, chunks: seq<Id>, subject: Key, predicate_: nat, object_: Key)
    | EvidenceKey(fact: Key, chunk: Id)

  datatype Item =
    | Entity(key: Key, name: Name, aliases: seq<nat>, chunks: seq<Id>, confidence: real)
    | Mention(key: Key, doc: Id, chunk: Id, surface: Name, entity: Key)
    | Fact(key: Key, doc: Id, subject: Key, predicate_: nat, object_: Key, chunks: seq<Id>, evidence: seq<Key>)
    | Evidence(key: Key, doc: Id, fact: Key, chunk: Id)

  datatype Records = Records(entities: seq<Item>, mentions: seq<Item>, facts: seq<Item>, evidence: seq<Item>)

  datatype Index = Index(sections: Records, revision: nat)

  const EMPTY_INDEX := Index(Records([], [], [], []), 0)

  /** The order of ids as text, which document each chunk and version belongs to, and which ids are documents'. */
  datatype World = World(rank: Key -> int, owner: Id -> Id, isDoc: Id -> bool)

  /** One build: a document and the records made of it. */
  datatype Build = Build(doc: Id, records: Records)
}
