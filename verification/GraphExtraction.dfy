/**
 The entities a build notes, and the rule-based extractor. Its records refer only to each
 other, which is what `GraphIndex` asks of a build.
 */
module GraphExtraction {
  import opened Wrappers
  import opened GraphIndex
  import opened GraphModel

  function EntityOf(name: Name): Key {
    EntityKey(name.folded)
  }

  /** The chunk ids and the version of one document. */
  ghost predicate OwnChunks(w: World, chunks: seq<Id>, doc: Id) {
    forall c :: c in chunks ==> w.owner(c) == doc && !w.isDoc(c)
  }

  /** Entities by name, in the order the names were first seen. */
  ghost predicate ByName(entities: seq<Item>) {
    && (forall x :: x in entities ==> x.Entity? && x.key == EntityOf(x.name))
    && (forall i, j :: 0 <= i < j < |entities| ==> entities[i].name != entities[j].name)
  }

  ghost predicate Named(entities: seq<Item>, name: Name) {
    exists x :: x in entities && x.Entity? && x.name == name
  }

  lemma NamedHasKey(entities: seq<Item>, name: Name)
    requires ByName(entities) && Named(entities, name)
    ensures HasKey(entities, EntityOf(name))
  {
  }

  /** Replaces the entity of a name by `e`, or adds it. */
  method SetEntity(entities: seq<Item>, e: Item) returns (r: seq<Item>)
    requires ByName(entities) && e.Entity? && e.key == EntityOf(e.name)
    ensures ByName(r)
    ensures forall n :: Named(r, n) <==> Named(entities, n) || n == e.name
    ensures forall x :: x in r <==> x == e || (x in entities && x.name != e.name)
  {
    var i := 0;
    while i < |entities| && entities[i].name != e.name
      invariant 0 <= i <= |entities| && forall j :: 0 <= j < i ==> entities[j].name != e.name
    {
      i := i + 1;
    }
    r := if i == |entities| then entities + [e] else entities[i := e];
    assert i < |entities| ==> entities[i] in entities;
    forall n ensures Named(r, n) <==> Named(entities, n) || n == e.name {
      if Named(entities, n) {
        var x :| x in entities && x.Entity? && x.name == n;
        var j :| 0 <= j < |entities| && entities[j] == x;
        assert r[j].name == n && r[j] in r;
      }
      assert r[i].name == e.name && r[i] in r;
    }
    forall x ensures x in r <==> x == e || (x in entities && x.name != e.name) {
      if x in entities && x.name != e.name {
        var j :| 0 <= j < |entities| && entities[j] == x;
        assert r[j] == x;
      }
      assert r[i] == e;
    }
  }

  method GetEntity(entities: seq<Item>, name: Name) returns (e: Option<Item>)
    requires ByName(entities)
    ensures e.Some? ==> e.value in entities && e.value.Entity? && e.value.name == name
    ensures e.None? ==> !Named(entities, name)
  {
    for i := 0 to |entities|
      invariant forall j :: 0 <= j < i ==> entities[j].name != name
    {
      if entities[i].name == name {
        assert entities[i] in entities;
        return Some(entities[i]);
      }
    }
    return None;
  }

  ghost predicate EntitiesOk(w: World, entities: seq<Item>) {
    ByName(entities) && forall x :: x in entities ==> EntityOk(w, x)
  }

  /** A name was noted in a chunk. */
  ghost predicate SeenIn(entities: seq<Item>, name: Name, chunk: Id) {
    exists x :: x in entities && x.Entity? && x.name == name && chunk in x.chunks
  }

  ghost predicate AliasOf(entities: seq<Item>, name: Name, alias: nat) {
    exists x :: x in entities && x.Entity? && x.name == name && alias in x.aliases
  }

  function Larger(a: real, b: real): real {
    if a < b then b else a
  }

  /** Notes a name: its aliases and chunks accumulate, and its larger confidence wins. */
  method NoteEntity(w: World, entities: seq<Item>, name: Name, aliases: seq<nat>, chunks: seq<Id>, confidence: real)
    returns (r: seq<Item>)
    requires EntitiesOk(w, entities) && forall c :: c in chunks ==> !w.isDoc(c)
    ensures EntitiesOk(w, r)
    ensures forall n :: Named(r, n) <==> Named(entities, n) || n == name
    ensures forall n, c :: SeenIn(r, n, c) <==> SeenIn(entities, n, c) || (n == name && c in chunks)
    ensures forall n, a :: AliasOf(r, n, a) <==> AliasOf(entities, n, a) || (n == name && a in aliases)
    ensures forall x :: x in r && x.name != name ==> x in entities
    ensures forall x :: x in r && x.name == name ==>
      if Named(entities, name) then exists y :: y in entities && y.name == name && x.confidence == Larger(y.confidence, confidence)
      else x.confidence == confidence
  {
    var found := GetEntity(entities, name);
    var e := if found.Some? then found.value else Entity(EntityOf(name), name, [], [], confidence);
    var known, seen := e.aliases, e.chunks;
    for k := 0 to |aliases|
      invariant forall a :: a in known <==> a in e.aliases || a in aliases[..k]
    {
      if aliases[k] !in known {
        known := known + [aliases[k]];
      }
      assert aliases[..k + 1] == aliases[..k] + [aliases[k]];
    }
    assert aliases[..|aliases|] == aliases;
    for k := 0 to |chunks|
      invariant forall c :: c in seen <==> c in e.chunks || c in chunks[..k]
    {
      if chunks[k] !in seen {
        seen := seen + [chunks[k]];
      }
      assert chunks[..k + 1] == chunks[..k] + [chunks[k]];
    }
    assert chunks[..|chunks|] == chunks;
    NoteSeen(entities, name, e, found.Some?);
    r := SetEntity(entities, Entity(e.key, name, known, seen, Larger(e.confidence, confidence)));
  }

  lemma NoteSeen(entities: seq<Item>, name: Name, e: Item, known: bool)
    requires ByName(entities) && e.Entity? && e.name == name
    requires if known then e in entities else !Named(entities, name) && e.chunks == [] && e.aliases == []
    ensures forall c :: SeenIn(entities, name, c) <==> c in e.chunks
    ensures forall a :: AliasOf(entities, name, a) <==> a in e.aliases
  {
    if known {
      forall x | x in entities && x.name == name ensures x == e {
        var i :| 0 <= i < |entities| && entities[i] == x;
        var j :| 0 <= j < |entities| && entities[j] == e;
      }
    }
  }

  // ----- the rule-based extractor -----

  /** A chunk, the entity names found in its text, and the predicate its text suggests. */
  datatype ChunkText = ChunkText(id: Id, names: seq<Name>, predicate_: nat)

  function ChunkMentions(doc: Id, c: ChunkText): seq<Item> {
    seq(|c.names|, i requires 0 <= i < |c.names| =>
      Mention(MentionKey(c.id, c.names[i], i), doc, c.id, c.names[i], EntityOf(c.names[i])))
  }

  /** The fact a chunk's first two names make. */
  function ChunkFact(doc: Id, version: Id, c: ChunkText): Item
    requires |c.names| >= 2
  {
    var s, o := EntityOf(c.names[0]), EntityOf(c.names[1]);
    var key := FactKey(version, [c.id], s, c.predicate_, o);
    Fact(key, doc, s, c.predicate_, o, [c.id], [EvidenceKey(key, c.id)])
  }

  function ChunkEvidence(doc: Id, version: Id, c: ChunkText): Item
    requires |c.names| >= 2
  {
    var key := ChunkFact(doc, version, c).key;
    Evidence(EvidenceKey(key, c.id), doc, key, c.id)
  }

  function MentionsOf(doc: Id, chunks: seq<ChunkText>): seq<Item> {
    if chunks == [] then [] else MentionsOf(doc, chunks[..|chunks| - 1]) + ChunkMentions(doc, chunks[|chunks| - 1])
  }

  function FactsOf(doc: Id, version: Id, chunks: seq<ChunkText>): seq<Item> {
    if chunks == [] then []
    else if |chunks[|chunks| - 1].names| < 2 then FactsOf(doc, version, chunks[..|chunks| - 1])
    else FactsOf(doc, version, chunks[..|chunks| - 1]) + [ChunkFact(doc, version, chunks[|chunks| - 1])]
  }

  function EvidenceOf(doc: Id, version: Id, chunks: seq<ChunkText>): seq<Item> {
    if chunks == [] then []
    else if |chunks[|chunks| - 1].names| < 2 then EvidenceOf(doc, version, chunks[..|chunks| - 1])
    else EvidenceOf(doc, version, chunks[..|chunks| - 1]) + [ChunkEvidence(doc, version, chunks[|chunks| - 1])]
  }

  ghost predicate NameIn(chunks: seq<ChunkText>, name: Name) {
    exists c :: c in chunks && name in c.names
  }

  /** The chunk's text names `name`. */
  ghost predicate TextNames(chunks: seq<ChunkText>, name: Name, id: Id) {
    exists c :: c in chunks && c.id == id && name in c.names
  }

  lemma NextText(chunks: seq<ChunkText>, c: ChunkText)
    ensures forall n :: NameIn(chunks + [c], n) <==> NameIn(chunks, n) || n in c.names
    ensures forall n, id :: TextNames(chunks + [c], n, id) <==> TextNames(chunks, n, id) || (c.id == id && n in c.names)
  {
    assert c in chunks + [c];
    forall n, id ensures TextNames(chunks + [c], n, id) <==> TextNames(chunks, n, id) || (c.id == id && n in c.names) {
      if TextNames(chunks, n, id) {
        var x :| x in chunks && x.id == id && n in x.names;
        assert x in chunks + [c];
      }
    }
    forall n ensures NameIn(chunks + [c], n) <==> NameIn(chunks, n) || n in c.names {
      if NameIn(chunks, n) {
        var x :| x in chunks && n in x.names;
        assert x in chunks + [c];
      }
    }
  }

  ghost predicate OwnTexts(w: World, chunks: seq<ChunkText>, doc: Id) {
    forall c :: c in chunks ==> w.owner(c.id) == doc && !w.isDoc(c.id)
  }

  /** The records of all chunks so far refer only to each other. */
  lemma {:induction false} RuleRecordsClosed(w: World, doc: Id, version: Id, chunks: seq<ChunkText>, entities: seq<Item>)
    requires w.isDoc(doc) && w.owner(version) == doc && OwnTexts(w, chunks, doc)
    requires EntitiesOk(w, entities) && forall n :: NameIn(chunks, n) ==> Named(entities, n)
    ensures BuildOf(w, Records(entities, MentionsOf(doc, chunks), FactsOf(doc, version, chunks), EvidenceOf(doc, version, chunks)), doc)
  {
    hide Named;
    if chunks != [] {
      var n := |chunks| - 1;
      var c := chunks[n];
      assert chunks == chunks[..n] + [c];
      RuleRecordsClosed(w, doc, version, chunks[..n], entities);
      forall i | 0 <= i < |c.names| ensures HasKey(entities, EntityOf(c.names[i])) {
        assert c in chunks && c.names[i] in c.names;
        NamedHasKey(entities, c.names[i]);
      }
      var r0 := Records(entities, MentionsOf(doc, chunks[..n]), FactsOf(doc, version, chunks[..n]), EvidenceOf(doc, version, chunks[..n]));
      var r := Records(entities, MentionsOf(doc, chunks), FactsOf(doc, version, chunks), EvidenceOf(doc, version, chunks));
      RuleChunkClosed(w, doc, version, r0, c, r);
    }
  }

  lemma RuleChunkClosed(w: World, doc: Id, version: Id, r0: Records, c: ChunkText, r: Records)
    requires BuildOf(w, r0, doc) && w.owner(version) == doc && w.owner(c.id) == doc && !w.isDoc(c.id)
    requires forall i :: 0 <= i < |c.names| ==> HasKey(r0.entities, EntityOf(c.names[i]))
    requires r == r0.(mentions := r0.mentions + ChunkMentions(doc, c),
                      facts := if |c.names| < 2 then r0.facts else r0.facts + [ChunkFact(doc, version, c)],
                      evidence := if |c.names| < 2 then r0.evidence else r0.evidence + [ChunkEvidence(doc, version, c)])
    ensures BuildOf(w, r, doc)
  {
    hide EntityOk;
    forall x | x in r.mentions ensures MentionOk(w, r, x) {
      assert x in r0.mentions ==> MentionOk(w, r0, x);
    }
    forall x | x in r.facts ensures FactOk(w, r, x) {
      if x in r0.facts {
        assert FactOk(w, r0, x);
        MoreEvidence(w, r0, r, x);
      } else {
        assert ChunkEvidence(doc, version, c) in r.evidence;
      }
    }
    forall x | x in r.evidence ensures EvidenceOk(w, x) {
      if x in r0.evidence {
        assert EvidenceOk(w, x);
      } else {
        assert x == ChunkEvidence(doc, version, c);
        assert OwnerOf(w, x.key) == OwnerOf(w, ChunkFact(doc, version, c).key);
      }
    }
  }

  /** A fact stays sound when entities and evidence are added. */
  lemma MoreEvidence(w: World, r0: Records, r: Records, x: Item)
    requires FactOk(w, r0, x)
    requires forall k :: HasKey(r0.entities, k) ==> HasKey(r.entities, k)
    requires forall k :: HasKey(r0.evidence, k) ==> HasKey(r.evidence, k)
    ensures FactOk(w, r, x)
  {
    hide HasKey;
  }

  method ExtractByRules(w: World, doc: Id, version: Id, chunks: seq<ChunkText>) returns (r: Records)
    requires w.isDoc(doc) && w.owner(version) == doc && OwnTexts(w, chunks, doc)
    ensures BuildOf(w, r, doc)
    ensures r.mentions == MentionsOf(doc, chunks)
    ensures r.facts == FactsOf(doc, version, chunks) && r.evidence == EvidenceOf(doc, version, chunks)
    ensures forall n :: Named(r.entities, n) <==> NameIn(chunks, n)
    ensures forall n, c :: SeenIn(r.entities, n, c) <==> TextNames(chunks, n, c)
  {
    var entities, mentions, facts, evidence: seq<Item> := [], [], [], [];
    for k := 0 to |chunks|
      invariant EntitiesOk(w, entities) && forall n :: Named(entities, n) <==> NameIn(chunks[..k], n)
      invariant forall n, c :: SeenIn(entities, n, c) <==> TextNames(chunks[..k], n, c)
      invariant mentions == MentionsOf(doc, chunks[..k])
      invariant facts == FactsOf(doc, version, chunks[..k]) && evidence == EvidenceOf(doc, version, chunks[..k])
    {
      var c := chunks[k];
      assert chunks[..k + 1] == chunks[..k] + [c] && chunks[..k + 1][..k] == chunks[..k];
      entities, mentions := NoteNames(w, doc, c, entities, mentions);
      NextText(chunks[..k], c);
      if |c.names| >= 2 {
        facts, evidence := facts + [ChunkFact(doc, version, c)], evidence + [ChunkEvidence(doc, version, c)];
      }
    }
    assert chunks[..|chunks|] == chunks;
    var sorted := SortByRank(w, entities);
    RuleRecordsClosed(w, doc, version, chunks, entities);
    r := Records(sorted, mentions, facts, evidence);
    SameEntities(w, Records(entities, mentions, facts, evidence), r, doc);
  }

  /** Reordering entities keeps a build a build. */
  lemma SameEntities(w: World, r0: Records, r: Records, doc: Id)
    requires BuildOf(w, r0, doc) && r == r0.(entities := r.entities)
    requires forall x :: x in r.entities <==> x in r0.entities
    ensures BuildOf(w, r, doc)
    ensures forall n :: Named(r.entities, n) <==> Named(r0.entities, n)
    ensures forall n, c :: SeenIn(r.entities, n, c) <==> SeenIn(r0.entities, n, c)
  {
    assert forall k :: HasKey(r.entities, k) <==> HasKey(r0.entities, k);
    hide HasKey;
    forall x | x in r.mentions ensures MentionOk(w, r, x) {
      assert MentionOk(w, r0, x);
    }
    forall x | x in r.facts ensures FactOk(w, r, x) {
      assert FactOk(w, r0, x);
    }
  }

  /** The mentions of one chunk, and the entities they are of. */
  method NoteNames(w: World, doc: Id, c: ChunkText, entities0: seq<Item>, mentions0: seq<Item>)
    returns (entities: seq<Item>, mentions: seq<Item>)
    requires EntitiesOk(w, entities0) && !w.isDoc(c.id)
    ensures EntitiesOk(w, entities) && forall n :: Named(entities, n) <==> Named(entities0, n) || n in c.names
    ensures forall n, id :: SeenIn(entities, n, id) <==> SeenIn(entities0, n, id) || (id == c.id && n in c.names)
    ensures mentions == mentions0 + ChunkMentions(doc, c)
  {
    hide EntitiesOk, Named, SeenIn;
    entities, mentions := entities0, mentions0;
    for i := 0 to |c.names|
      invariant EntitiesOk(w, entities) && forall n :: Named(entities, n) <==> Named(entities0, n) || n in c.names[..i]
      invariant forall n, id :: SeenIn(entities, n, id) <==> SeenIn(entities0, n, id) || (id == c.id && n in c.names[..i])
      invariant mentions == mentions0 + ChunkMentions(doc, c)[..i]
    {
      var name := c.names[i];
      assert c.names[..i + 1] == c.names[..i] + [name];
      entities := NoteEntity(w, entities, name, [], [c.id], 0.0);
      mentions := mentions + [Mention(MentionKey(c.id, name, i), doc, c.id, name, EntityOf(name))];
    }
    assert c.names[..|c.names|] == c.names;
  }
}
