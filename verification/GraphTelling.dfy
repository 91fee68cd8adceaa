/**
 What a model's payload and a chunk's names put into the graph records, field by field: who is
 subject and who object of a fact, which chunks it rests on, and what each mention shows.
 */
module GraphTelling {
  import opened Wrappers
  import opened GraphModel
  import opened GraphIndex
  import opened GraphExtraction
  import opened GraphPayload

  // ----- which chunks -----

  lemma FirstIn(xs: seq<Id>)
    ensures xs != [] ==> xs[0] in xs
  {
  }

  /** The known chunks among those listed if there are any, else the first five in which the name appears, else the first of all. */
  lemma ChunksResolved(listed: seq<Id>, known: seq<Id>, name: Option<Name>, appears: (Name, Id) -> bool)
    ensures var r := ResolveChunks(listed, known, name, appears);
      && ((exists c :: c in listed && c in known) ==>
            (forall c :: c in r <==> c in listed && c in known) && forall i, j :: 0 <= i < j < |r| ==> r[i] != r[j])
      && ((forall c :: c in listed ==> c !in known) && name.Some? && (exists c :: c in known && appears(name.value, c)) ==>
            && (forall c :: c in r ==> c in known && appears(name.value, c)) && |r| <= 5
            && (|r| < 5 ==> forall c :: c in known && appears(name.value, c) ==> c in r))
      && (((forall c :: c in listed ==> c !in known) && known != []
           && (name.None? || forall c :: c in known ==> !appears(name.value, c))) ==> r == [known[0]])
  {
    var given := Filter(listed, c => c in known);
    var matches := if name.Some? then Filter(known, c => appears(name.value, c)) else [];
    if exists c :: c in listed && c in known {
      var c :| c in listed && c in known;
      assert c in given;
    } else {
      FirstIn(given);
      FirstIn(matches);
      if name.Some? && exists c :: c in known && appears(name.value, c) {
        var c :| c in known && appears(name.value, c);
        assert c in matches;
        assert |matches| > 5 ==> forall x :: x in matches[..5] ==> x in matches;
      }
    }
  }

  // ----- facts and evidence of relations -----

  /** Relation `rel` names both its ends, and claims them joined in these chunks. */
  predicate Claimed(c: Claim, known: seq<Id>, rel: LlmRelation, appears: (Name, Id) -> bool) {
    && rel.subject == Some(c.subject) && rel.object_ == Some(c.object_) && c.predicate_ == rel.predicate_
    && c.chunks == ResolveChunks(rel.listed, known, None, appears)
  }

  lemma {:induction false} ClaimsGiven(known: seq<Id>, relations: seq<LlmRelation>, appears: (Name, Id) -> bool, c: Claim)
    ensures c in Claims(known, relations, appears) <==> exists rel :: rel in relations && Claimed(c, known, rel, appears)
    decreases |relations|
  {
    hide ResolveChunks;
    if relations != [] {
      var past, last := relations[..|relations| - 1], relations[|relations| - 1];
      ClaimsGiven(known, past, appears, c);
      assert relations == past + [last];
      assert Complete(last) ==> (Claimed(c, known, last, appears) <==> c == ClaimOf(known, last, appears));
      assert !Complete(last) ==> !Claimed(c, known, last, appears);
    }
  }

  /** Some usable batch holds a relation that makes the claim. */
  ghost predicate ClaimedIn(c: Claim, batches: seq<Batch>, appears: (Name, Id) -> bool) {
    exists b, rel :: b in batches && b.answer.Parsed? && rel in b.answer.payload.relations && Claimed(c, b.known, rel, appears)
  }

  lemma {:induction false} AllClaimsGiven(batches: seq<Batch>, appears: (Name, Id) -> bool, c: Claim)
    ensures c in AllClaims(batches, appears) <==> ClaimedIn(c, batches, appears)
    decreases |batches|
  {
    hide Claimed, Claims;
    if batches != [] {
      var past, last := batches[..|batches| - 1], batches[|batches| - 1];
      AllClaimsGiven(past, appears, c);
      assert batches == past + [last];
      if last.answer.Parsed? {
        ClaimsGiven(last.known, last.answer.payload.relations, appears, c);
      }
    }
  }

  /** A fact that says what the claim says, with one evidence key for each chunk in order. */
  predicate Says(x: Item, doc: Id, version: Id, c: Claim) {
    && x.Fact? && x.doc == doc
    && x.subject == EntityKey(c.subject.folded) && x.predicate_ == c.predicate_ && x.object_ == EntityKey(c.object_.folded)
    && x.chunks == c.chunks && x.key == FactKey(version, c.chunks, x.subject, c.predicate_, x.object_)
    && |x.evidence| == |c.chunks| && forall i :: 0 <= i < |c.chunks| ==> x.evidence[i] == EvidenceKey(x.key, c.chunks[i])
  }

  lemma FactSays(doc: Id, version: Id, c: Claim, x: Item)
    ensures Says(x, doc, version, c) <==> x == ClaimFact(doc, version, c)
  {
    if Says(x, doc, version, c) {
      assert x.evidence == ClaimFact(doc, version, c).evidence;
    }
  }

  /** The model's facts are exactly those its relations claim, subject and object as given. */
  lemma FactsAreGiven(facts: seq<Item>, doc: Id, version: Id, batches: seq<Batch>, appears: (Name, Id) -> bool, x: Item)
    requires FactsTell(facts, doc, version, AllClaims(batches, appears))
    ensures x in facts <==> exists c :: ClaimedIn(c, batches, appears) && Says(x, doc, version, c)
  {
    hide Says, ClaimFact, ClaimedIn;
    forall c ensures Says(x, doc, version, c) <==> x == ClaimFact(doc, version, c) {
      FactSays(doc, version, c, x);
    }
    forall c ensures c in AllClaims(batches, appears) <==> ClaimedIn(c, batches, appears) {
      AllClaimsGiven(batches, appears, c);
    }
  }

  /** And its evidence: for each claim and each of its chunks, the claim's fact in that chunk. */
  lemma EvidenceIsGiven(evidence: seq<Item>, doc: Id, version: Id, batches: seq<Batch>, appears: (Name, Id) -> bool, x: Item)
    requires EvidenceTells(evidence, doc, version, AllClaims(batches, appears))
    ensures x in evidence <==>
      exists c, f, chunk :: ClaimedIn(c, batches, appears) && chunk in c.chunks && Says(f, doc, version, c)
        && x == Evidence(EvidenceKey(f.key, chunk), doc, f.key, chunk)
  {
    hide ClaimedIn;
    forall c ensures c in AllClaims(batches, appears) <==> ClaimedIn(c, batches, appears) {
      AllClaimsGiven(batches, appears, c);
    }
    forall c, f ensures Says(f, doc, version, c) <==> f == ClaimFact(doc, version, c) {
      FactSays(doc, version, c, f);
    }
    hide Says;
    if x in evidence {
      var c, chunk :| c in AllClaims(batches, appears) && chunk in c.chunks && x == ClaimEvidence(doc, version, c, chunk);
      assert Says(ClaimFact(doc, version, c), doc, version, c);
      assert ClaimFact(doc, version, c).key == ClaimKey(version, c);
    }
  }

  // ----- mentions -----

  /** A named entity notes itself, and a relation that names both its ends notes each of them. */
  ghost predicate Noted(t: Note, known: seq<Id>, p: Payload, appears: (Name, Id) -> bool) {
    || (exists e :: e in p.entities && NotedByEntity(t, known, e, appears))
    || (exists rel :: rel in p.relations && NotedByRelation(t, known, rel, appears))
  }

  predicate NotedByEntity(t: Note, known: seq<Id>, e: LlmEntity, appears: (Name, Id) -> bool) {
    && e.name == Some(t.name) && t.aliases == e.aliases && t.confidence == e.confidence
    && t.chunks == ResolveChunks(e.listed, known, e.name, appears)
  }

  predicate NotedByRelation(t: Note, known: seq<Id>, rel: LlmRelation, appears: (Name, Id) -> bool) {
    && rel.subject.Some? && rel.object_.Some? && (rel.subject == Some(t.name) || rel.object_ == Some(t.name))
    && t.aliases == [] && t.confidence == rel.confidence && t.chunks == ResolveChunks(rel.listed, known, None, appears)
  }

  lemma {:induction false} EntityNotesGiven(known: seq<Id>, entities: seq<LlmEntity>, appears: (Name, Id) -> bool, t: Note)
    ensures t in EntityNotes(known, entities, appears) <==> exists e :: e in entities && NotedByEntity(t, known, e, appears)
    decreases |entities|
  {
    hide ResolveChunks;
    if entities != [] {
      var past, last := entities[..|entities| - 1], entities[|entities| - 1];
      EntityNotesGiven(known, past, appears, t);
      assert entities == past + [last];
      assert last.name.Some? ==>
        (NotedByEntity(t, known, last, appears)
         <==> t == Note(last.name.value, last.aliases, ResolveChunks(last.listed, known, last.name, appears), last.confidence));
    }
  }

  lemma {:induction false} RelationNotesGiven(known: seq<Id>, relations: seq<LlmRelation>, appears: (Name, Id) -> bool, t: Note)
    ensures t in RelationNotes(known, relations, appears) <==> exists rel :: rel in relations && NotedByRelation(t, known, rel, appears)
    decreases |relations|
  {
    hide ResolveChunks;
    if relations != [] {
      var past, last := relations[..|relations| - 1], relations[|relations| - 1];
      RelationNotesGiven(known, past, appears, t);
      assert relations == past + [last];
      assert Complete(last) ==>
        (NotedByRelation(t, known, last, appears) <==> t in NotesOf(ClaimOf(known, last, appears), last.confidence));
    }
  }

  /** Some usable batch notes it. */
  ghost predicate NotedInSome(t: Note, batches: seq<Batch>, appears: (Name, Id) -> bool) {
    exists b :: b in batches && b.answer.Parsed? && Noted(t, b.known, b.answer.payload, appears)
  }

  lemma {:induction false} AllNotesGiven(batches: seq<Batch>, appears: (Name, Id) -> bool, t: Note)
    ensures t in AllNotes(batches, appears) <==> NotedInSome(t, batches, appears)
    decreases |batches|
  {
    hide EntityNotes, RelationNotes, NotedByEntity, NotedByRelation;
    if batches != [] {
      var past, last := batches[..|batches| - 1], batches[|batches| - 1];
      AllNotesGiven(past, appears, t);
      assert batches == past + [last];
      if last.answer.Parsed? {
        EntityNotesGiven(last.known, last.answer.payload.entities, appears, t);
        RelationNotesGiven(last.known, last.answer.payload.relations, appears, t);
      }
    }
  }

  /** A mention of the note in the `i`th of its chunks, under its name and entity. */
  predicate Shows(x: Item, doc: Id, t: Note, i: int) {
    0 <= i < |t.chunks| && x == Mention(MentionKey(t.chunks[i], t.name, i), doc, t.chunks[i], t.name, EntityKey(t.name.folded))
  }

  /** The model's mentions: each note in each of its chunks, under the note's name and its entity. */
  lemma MentionsAreGiven(mentions: seq<Item>, doc: Id, batches: seq<Batch>, appears: (Name, Id) -> bool, x: Item)
    requires MentionsTell(mentions, doc, AllNotes(batches, appears))
    ensures x in mentions <==> exists t, i :: NotedInSome(t, batches, appears) && Shows(x, doc, t, i)
  {
    hide NotedInSome;
    forall t, i ensures Shows(x, doc, t, i) <==> 0 <= i < |t.chunks| && x == MentionIn(doc, t, i) {
    }
    forall t ensures t in AllNotes(batches, appears) <==> NotedInSome(t, batches, appears) {
      AllNotesGiven(batches, appears, t);
    }
    hide Shows;
  }

  // ----- the rules -----

  /** The rules' fact of a chunk joins its first name to its second, on the evidence of that chunk. */
  predicate RuleSays(x: Item, doc: Id, version: Id, c: ChunkText) {
    && |c.names| >= 2 && x.Fact? && x.doc == doc && x.chunks == [c.id]
    && x.subject == EntityKey(c.names[0].folded) && x.predicate_ == c.predicate_ && x.object_ == EntityKey(c.names[1].folded)
    && x.key == FactKey(version, [c.id], x.subject, c.predicate_, x.object_) && x.evidence == [EvidenceKey(x.key, c.id)]
  }

  lemma {:induction false} RuleFacts(doc: Id, version: Id, chunks: seq<ChunkText>, x: Item)
    ensures x in FactsOf(doc, version, chunks) <==> exists c :: c in chunks && RuleSays(x, doc, version, c)
    decreases |chunks|
  {
    if chunks != [] {
      var past, last := chunks[..|chunks| - 1], chunks[|chunks| - 1];
      RuleFacts(doc, version, past, x);
      assert chunks == past + [last];
      assert |last.names| >= 2 ==> (RuleSays(x, doc, version, last) <==> x == ChunkFact(doc, version, last));
    }
  }

  lemma {:induction false} RuleEvidence(doc: Id, version: Id, chunks: seq<ChunkText>, x: Item)
    ensures x in EvidenceOf(doc, version, chunks) <==>
      exists c, f :: c in chunks && RuleSays(f, doc, version, c) && x == Evidence(EvidenceKey(f.key, c.id), doc, f.key, c.id)
    decreases |chunks|
  {
    if chunks != [] {
      var past, last := chunks[..|chunks| - 1], chunks[|chunks| - 1];
      RuleEvidence(doc, version, past, x);
      assert chunks == past + [last];
      forall f ensures |last.names| >= 2 ==> (RuleSays(f, doc, version, last) <==> f == ChunkFact(doc, version, last)) {
      }
      assert |last.names| >= 2 ==> RuleSays(ChunkFact(doc, version, last), doc, version, last);
    }
  }

  lemma {:induction false} RuleMentions(doc: Id, chunks: seq<ChunkText>, x: Item)
    ensures x in MentionsOf(doc, chunks) <==>
      exists c, i :: (c in chunks && 0 <= i < |c.names|
        && x == Mention(MentionKey(c.id, c.names[i], i), doc, c.id, c.names[i], EntityKey(c.names[i].folded)))
    decreases |chunks|
  {
    if chunks != [] {
      var past, last := chunks[..|chunks| - 1], chunks[|chunks| - 1];
      RuleMentions(doc, past, x);
      assert chunks == past + [last];
      if x in ChunkMentions(doc, last) {
        var i :| 0 <= i < |last.names| && ChunkMentions(doc, last)[i] == x;
        assert last in chunks;
      }
      if exists i :: 0 <= i < |last.names| && x == Mention(MentionKey(last.id, last.names[i], i), doc, last.id, last.names[i], EntityKey(last.names[i].folded)) {
        var i :| 0 <= i < |last.names| && x == Mention(MentionKey(last.id, last.names[i], i), doc, last.id, last.names[i], EntityKey(last.names[i].folded));
        assert ChunkMentions(doc, last)[i] == x;
      }
    }
  }
}
