/**
 Records made of model payloads, batch by batch, and merged; and the choice a build makes
 between them and the rules. A payload is read as notes, each a name with its chunks, and
 claims, each a relation with its chunks: the records hold exactly what these give.
 */
module GraphPayload {
  import opened Wrappers
  import opened GraphExtraction
  import opened GraphIndex
  import opened GraphModel

  datatype LlmEntity = LlmEntity(name: Option<Name>, aliases: seq<nat>, listed: seq<Id>, confidence: real)

  datatype LlmRelation = LlmRelation(subject: Option<Name>, object_: Option<Name>, predicate_: nat, listed: seq<Id>, confidence: real)

  datatype Payload = Payload(entities: seq<LlmEntity>, relations: seq<LlmRelation>)

  function Dedupe<T(==, !new)>(xs: seq<T>): (r: seq<T>)
    ensures forall x :: x in r <==> x in xs
    ensures forall i, j :: 0 <= i < j < |r| ==> r[i] != r[j]
  {
    if xs == [] then []
    else
      var n := |xs| - 1;
      assert xs == xs[..n] + [xs[n]];
      if xs[n] in xs[..n] then Dedupe(xs[..n]) else Dedupe(xs[..n]) + [xs[n]]
  }

  function Filter(xs: seq<Id>, p: Id -> bool): (r: seq<Id>)
    ensures forall x :: x in r <==> x in xs && p(x)
  {
    if xs == [] then []
    else if p(xs[|xs| - 1]) then Filter(xs[..|xs| - 1], p) + [xs[|xs| - 1]]
    else Filter(xs[..|xs| - 1], p)
  }

  /**
   The chunks an item is attributed to: the known ones it lists, else those its name appears
   in, else the first. None are left over only when no chunk is known, so for a relation the
   later fallbacks, the chunks its two entities share and the first chunk, add nothing.
   */
  function ResolveChunks(listed: seq<Id>, known: seq<Id>, name: Option<Name>, appears: (Name, Id) -> bool): (r: seq<Id>)
    ensures forall c :: c in r ==> c in known
    ensures r == [] <==> known == []
  {
    var given := Filter(listed, c => c in known);
    var matches := if name.Some? then Filter(known, c => appears(name.value, c)) else [];
    if given != [] then
      var r := Dedupe(given);
      assert given[0] in r;
      r
    else if matches != [] then
      assert matches[0] in known;
      if |matches| > 5 then matches[..5] else matches
    else if known != [] then [known[0]] else []
  }

  // ----- what a payload says -----

  /** A name noted in some chunks. */
  datatype Note = Note(name: Name, aliases: seq<nat>, chunks: seq<Id>, confidence: real)

  /** A complete relation, claimed of some chunks. */
  datatype Claim = Claim(subject: Name, predicate_: nat, object_: Name, chunks: seq<Id>)

  function EntityNotes(known: seq<Id>, entities: seq<LlmEntity>, appears: (Name, Id) -> bool): seq<Note> {
    if entities == [] then []
    else
      var before, e := EntityNotes(known, entities[..|entities| - 1], appears), entities[|entities| - 1];
      if e.name.None? then before
      else before + [Note(e.name.value, e.aliases, ResolveChunks(e.listed, known, e.name, appears), e.confidence)]
  }

  predicate Complete(rel: LlmRelation) {
    rel.subject.Some? && rel.object_.Some?
  }

  function ClaimOf(known: seq<Id>, rel: LlmRelation, appears: (Name, Id) -> bool): Claim
    requires Complete(rel)
  {
    Claim(rel.subject.value, rel.predicate_, rel.object_.value, ResolveChunks(rel.listed, known, None, appears))
  }

  /** A claim notes its subject and its object. */
  function NotesOf(c: Claim, confidence: real): seq<Note> {
    [Note(c.subject, [], c.chunks, confidence), Note(c.object_, [], c.chunks, confidence)]
  }

  function RelationNotes(known: seq<Id>, relations: seq<LlmRelation>, appears: (Name, Id) -> bool): seq<Note> {
    if relations == [] then []
    else
      var before, rel := RelationNotes(known, relations[..|relations| - 1], appears), relations[|relations| - 1];
      if !Complete(rel) then before else before + NotesOf(ClaimOf(known, rel, appears), rel.confidence)
  }

  function Claims(known: seq<Id>, relations: seq<LlmRelation>, appears: (Name, Id) -> bool): seq<Claim> {
    if relations == [] then []
    else
      var before, rel := Claims(known, relations[..|relations| - 1], appears), relations[|relations| - 1];
      if !Complete(rel) then before else before + [ClaimOf(known, rel, appears)]
  }

  function Notes(known: seq<Id>, p: Payload, appears: (Name, Id) -> bool): seq<Note> {
    EntityNotes(known, p.entities, appears) + RelationNotes(known, p.relations, appears)
  }

  // ----- the records notes and claims give -----

  function MentionIn(doc: Id, t: Note, i: nat): Item
    requires i < |t.chunks|
  {
    Mention(MentionKey(t.chunks[i], t.name, i), doc, t.chunks[i], t.name, EntityOf(t.name))
  }

  function ClaimKey(version: Id, c: Claim): Key {
    FactKey(version, c.chunks, EntityOf(c.subject), c.predicate_, EntityOf(c.object_))
  }

  function ClaimFact(doc: Id, version: Id, c: Claim): Item {
    var key := ClaimKey(version, c);
    Fact(key, doc, EntityOf(c.subject), c.predicate_, EntityOf(c.object_), c.chunks,
         seq(|c.chunks|, i requires 0 <= i < |c.chunks| => EvidenceKey(key, c.chunks[i])))
  }

  function ClaimEvidence(doc: Id, version: Id, c: Claim, chunk: Id): Item {
    Evidence(EvidenceKey(ClaimKey(version, c), chunk), doc, ClaimKey(version, c), chunk)
  }

  ghost predicate NotedIn(notes: seq<Note>, name: Name) {
    exists t :: t in notes && t.name == name
  }

  ghost predicate NotedAt(notes: seq<Note>, name: Name, chunk: Id) {
    exists t :: t in notes && t.name == name && chunk in t.chunks
  }

  ghost predicate NotedAs(notes: seq<Note>, name: Name, alias: nat) {
    exists t :: t in notes && t.name == name && alias in t.aliases
  }

  /** `v` is the largest confidence with which the name was noted. */
  ghost predicate MostConfident(notes: seq<Note>, name: Name, v: real) {
    && (exists t :: t in notes && t.name == name && t.confidence == v)
    && (forall t :: t in notes && t.name == name ==> t.confidence <= v)
  }

  ghost predicate MentionedIn(notes: seq<Note>, doc: Id, x: Item) {
    exists t, i :: t in notes && 0 <= i < |t.chunks| && x == MentionIn(doc, t, i)
  }

  /** One entity for each name noted, with exactly its chunks and aliases and its largest confidence. */
  ghost predicate EntitiesTell(entities: seq<Item>, notes: seq<Note>) {
    && (forall n :: Named(entities, n) <==> NotedIn(notes, n))
    && (forall n, c :: SeenIn(entities, n, c) <==> NotedAt(notes, n, c))
    && (forall n, a :: AliasOf(entities, n, a) <==> NotedAs(notes, n, a))
    && (forall x :: x in entities ==> x.Entity? && MostConfident(notes, x.name, x.confidence))
  }

  /** A mention of each noted name at each of its chunks, and no other. */
  ghost predicate MentionsTell(mentions: seq<Item>, doc: Id, notes: seq<Note>) {
    forall x :: x in mentions <==> MentionedIn(notes, doc, x)
  }

  /** One fact for each claim, and no other. */
  ghost predicate FactsTell(facts: seq<Item>, doc: Id, version: Id, claims: seq<Claim>) {
    forall x :: x in facts <==> exists c :: c in claims && x == ClaimFact(doc, version, c)
  }

  /** Evidence of each claim in each of its chunks, and no other. */
  ghost predicate EvidenceTells(evidence: seq<Item>, doc: Id, version: Id, claims: seq<Claim>) {
    forall x :: x in evidence <==> exists c, chunk :: c in claims && chunk in c.chunks && x == ClaimEvidence(doc, version, c, chunk)
  }

  lemma NextNote(notes: seq<Note>, t: Note, doc: Id)
    ensures forall n :: NotedIn(notes + [t], n) <==> NotedIn(notes, n) || n == t.name
    ensures forall n, c :: NotedAt(notes + [t], n, c) <==> NotedAt(notes, n, c) || (n == t.name && c in t.chunks)
    ensures forall n, a :: NotedAs(notes + [t], n, a) <==> NotedAs(notes, n, a) || (n == t.name && a in t.aliases)
    ensures forall x :: MentionedIn(notes + [t], doc, x) <==>
      MentionedIn(notes, doc, x) || exists i :: 0 <= i < |t.chunks| && x == MentionIn(doc, t, i)
  {
    assert t in notes + [t];
    assert forall u :: u in notes + [t] <==> u in notes || u == t;
    forall x ensures MentionedIn(notes + [t], doc, x) <==>
                     MentionedIn(notes, doc, x) || exists i :: 0 <= i < |t.chunks| && x == MentionIn(doc, t, i) {
      if MentionedIn(notes, doc, x) {
        var u, i :| u in notes && 0 <= i < |u.chunks| && x == MentionIn(doc, u, i);
        assert u in notes + [t];
      }
    }
  }

  lemma NextConfidence(notes: seq<Note>, t: Note, name: Name, v: real)
    ensures name != t.name ==> (MostConfident(notes + [t], name, v) <==> MostConfident(notes, name, v))
    ensures name == t.name && MostConfident(notes, name, v) ==> MostConfident(notes + [t], name, Larger(v, t.confidence))
    ensures name == t.name && !NotedIn(notes, name) ==> MostConfident(notes + [t], name, t.confidence)
  {
    assert t in notes + [t];
    assert forall u :: u in notes + [t] <==> u in notes || u == t;
    if MostConfident(notes, name, v) {
      var u :| u in notes && u.name == name && u.confidence == v;
      assert u in notes + [t];
    }
  }

  /** What noting a name does to the entities, in terms of the notes so far. */
  lemma EntitiesNote(es: seq<Item>, r: seq<Item>, notes: seq<Note>, t: Note)
    requires EntitiesTell(es, notes) && forall x :: x in r ==> x.Entity?
    requires forall n :: Named(r, n) <==> Named(es, n) || n == t.name
    requires forall n, c :: SeenIn(r, n, c) <==> SeenIn(es, n, c) || (n == t.name && c in t.chunks)
    requires forall n, a :: AliasOf(r, n, a) <==> AliasOf(es, n, a) || (n == t.name && a in t.aliases)
    requires forall x :: x in r && x.name != t.name ==> x in es
    requires forall x :: x in r && x.name == t.name ==>
      if Named(es, t.name) then exists y :: y in es && y.name == t.name && x.confidence == Larger(y.confidence, t.confidence)
      else x.confidence == t.confidence
    ensures EntitiesTell(r, notes + [t])
  {
    NextNote(notes, t, 0);
    hide Named, SeenIn, AliasOf, NotedIn, NotedAt, NotedAs, MostConfident, MentionedIn;
    forall x | x in r ensures MostConfident(notes + [t], x.name, x.confidence) {
      if x.name != t.name {
        NextConfidence(notes, t, x.name, x.confidence);
      } else if Named(es, t.name) {
        var y :| y in es && y.name == t.name && x.confidence == Larger(y.confidence, t.confidence);
        NextConfidence(notes, t, y.name, y.confidence);
      } else {
        NextConfidence(notes, t, t.name, 0.0);
      }
    }
  }

  // ----- building one payload's records -----

  /** Records built so far, with the notes and claims they tell of. */
  ghost predicate Told(w: World, r: Records, doc: Id, version: Id, notes: seq<Note>, claims: seq<Claim>) {
    && EntitiesOk(w, r.entities) && EntitiesTell(r.entities, notes)
    && KeysUnique(r.mentions) && MentionsTell(r.mentions, doc, notes)
    && KeysUnique(r.facts) && FactsTell(r.facts, doc, version, claims)
    && KeysUnique(r.evidence) && EvidenceTells(r.evidence, doc, version, claims)
  }

  method KnowsKey(d: seq<Item>, k: Key) returns (b: bool)
    ensures b <==> HasKey(d, k)
  {
    for i := 0 to |d|
      invariant forall j :: 0 <= j < i ==> d[j].key != k
    {
      if d[i].key == k {
        assert d[i] in d;
        return true;
      }
    }
    return false;
  }

  /** A mention already known is the same mention: its key says all of it. */
  lemma SameMention(mentions: seq<Item>, doc: Id, notes: seq<Note>, t: Note, i: nat)
    requires i < |t.chunks| && HasKey(mentions, MentionIn(doc, t, i).key)
    requires forall x :: x in mentions ==> MentionedIn(notes, doc, x) || exists j :: 0 <= j < i && x == MentionIn(doc, t, j)
    ensures MentionIn(doc, t, i) in mentions
  {
    var x :| x in mentions && x.key == MentionIn(doc, t, i).key;
    if MentionedIn(notes, doc, x) {
      var u, j :| u in notes && 0 <= j < |u.chunks| && x == MentionIn(doc, u, j);
      assert x == MentionIn(doc, t, i);
    }
  }

  /** A mention of a name in each of its chunks, unless known already. */
  method MentionName(mentions0: seq<Item>, doc: Id, t: Note, ghost notes: seq<Note>) returns (mentions: seq<Item>)
    requires KeysUnique(mentions0) && MentionsTell(mentions0, doc, notes)
    ensures KeysUnique(mentions) && MentionsTell(mentions, doc, notes + [t])
  {
    hide MentionedIn, KeysUnique, HasKey, Put;
    mentions := mentions0;
    for i := 0 to |t.chunks|
      invariant KeysUnique(mentions)
      invariant forall x :: x in mentions <==> MentionedIn(notes, doc, x) || exists j :: 0 <= j < i && x == MentionIn(doc, t, j)
    {
      var m := Mention(MentionKey(t.chunks[i], t.name, i), doc, t.chunks[i], t.name, EntityOf(t.name));
      assert m == MentionIn(doc, t, i);
      var known := KnowsKey(mentions, m.key);
      if known {
        SameMention(mentions, doc, notes, t, i);
      } else {
        PutExact(mentions, m);
        NoSuchKey(mentions, m.key);
        mentions := Put(mentions, m);
      }
    }
    NextNote(notes, t, doc);
  }

  lemma NoSuchKey(d: seq<Item>, k: Key)
    requires !HasKey(d, k)
    ensures forall x :: x in d ==> x.key != k
  {
  }

  /** Notes an entity and a mention of it in each of its chunks; everything else is kept. */
  method UpsertLlmEntity(w: World, r0: Records, doc: Id, t: Note, ghost version: Id, ghost notes: seq<Note>, ghost claims: seq<Claim>)
    returns (r: Records)
    requires Told(w, r0, doc, version, notes, claims) && OwnChunks(w, t.chunks, doc)
    ensures Told(w, r, doc, version, notes + [t], claims)
    ensures r.facts == r0.facts && r.evidence == r0.evidence
  {
    hide EntitiesTell, MentionsTell, FactsTell, EvidenceTells, KeysUnique, Named, SeenIn, AliasOf, EntityOk;
    var entities := NoteEntity(w, r0.entities, t.name, t.aliases, t.chunks, t.confidence);
    EntitiesNote(r0.entities, entities, notes, t);
    var mentions := MentionName(r0.mentions, doc, t, notes);
    r := r0.(entities := entities, mentions := mentions);
  }

  /** The evidence of one claim in each of its chunks. */
  method NoteEvidence(evidence0: seq<Item>, doc: Id, version: Id, c: Claim, ghost claims: seq<Claim>)
    returns (evidence: seq<Item>, ids: seq<Key>)
    requires KeysUnique(evidence0) && EvidenceTells(evidence0, doc, version, claims)
    ensures KeysUnique(evidence) && EvidenceTells(evidence, doc, version, claims + [c])
    ensures ids == ClaimFact(doc, version, c).evidence
  {
    hide KeysUnique, Put, EvidenceTells;
    evidence, ids := evidence0, [];
    var fact := FactKey(version, c.chunks, EntityOf(c.subject), c.predicate_, EntityOf(c.object_));
    ClaimsNotYet(evidence0, doc, version, c, claims);
    for i := 0 to |c.chunks|
      invariant KeysUnique(evidence)
      invariant EvidenceSoFar(evidence, doc, version, claims, c, c.chunks[..i])
      invariant ids == seq(i, j requires 0 <= j < i => EvidenceKey(fact, c.chunks[j]))
    {
      var e := Evidence(EvidenceKey(fact, c.chunks[i]), doc, fact, c.chunks[i]);
      PutExact(evidence, e);
      SameEvidence(evidence, doc, version, claims, c, c.chunks[..i], c.chunks[i]);
      assert c.chunks[..i + 1] == c.chunks[..i] + [c.chunks[i]];
      evidence := Put(evidence, e);
      ids := ids + [e.key];
    }
    assert c.chunks[..|c.chunks|] == c.chunks;
    NextClaimsEvidence(evidence, doc, version, claims, c);
  }

  ghost predicate EvidenceSoFar(evidence: seq<Item>, doc: Id, version: Id, claims: seq<Claim>, c: Claim, chunks: seq<Id>) {
    forall x :: x in evidence <==>
      || (exists d, chunk :: d in claims && chunk in d.chunks && x == ClaimEvidence(doc, version, d, chunk))
      || (exists chunk :: chunk in chunks && x == ClaimEvidence(doc, version, c, chunk))
  }

  lemma ClaimsNotYet(evidence: seq<Item>, doc: Id, version: Id, c: Claim, claims: seq<Claim>)
    requires EvidenceTells(evidence, doc, version, claims)
    ensures EvidenceSoFar(evidence, doc, version, claims, c, [])
  {
  }

  /** Writing evidence again changes nothing: its key says all of it. */
  lemma SameEvidence(evidence: seq<Item>, doc: Id, version: Id, claims: seq<Claim>, c: Claim, chunks: seq<Id>, chunk: Id)
    requires KeysUnique(evidence) && EvidenceSoFar(evidence, doc, version, claims, c, chunks)
    ensures var e := ClaimEvidence(doc, version, c, chunk);
      && EvidenceSoFar(Put(evidence, e), doc, version, claims, c, chunks + [chunk])
  {
    hide KeysUnique, Put;
    var e := ClaimEvidence(doc, version, c, chunk);
    PutExact(evidence, e);
    forall x | x in evidence && x.key == e.key ensures x == e {
      if exists d, k :: d in claims && k in d.chunks && x == ClaimEvidence(doc, version, d, k) {
        var d, k :| d in claims && k in d.chunks && x == ClaimEvidence(doc, version, d, k);
      }
    }
    assert forall x :: x in Put(evidence, e) <==> x in evidence || x == e;
    assert chunk in chunks + [chunk];
    forall k | k in chunks ensures k in chunks + [chunk] {
    }
  }

  lemma NextClaimsEvidence(evidence: seq<Item>, doc: Id, version: Id, claims: seq<Claim>, c: Claim)
    requires EvidenceSoFar(evidence, doc, version, claims, c, c.chunks)
    ensures EvidenceTells(evidence, doc, version, claims + [c])
  {
    assert c in claims + [c];
    assert forall d :: d in claims + [c] <==> d in claims || d == c;
    forall x ensures x in evidence <==>
                     exists d, chunk :: d in claims + [c] && chunk in d.chunks && x == ClaimEvidence(doc, version, d, chunk) {
      if exists d, chunk :: d in claims && chunk in d.chunks && x == ClaimEvidence(doc, version, d, chunk) {
        var d, chunk :| d in claims && chunk in d.chunks && x == ClaimEvidence(doc, version, d, chunk);
        assert d in claims + [c];
      }
    }
  }

  /** Writing a fact again changes nothing either. */
  lemma PutFact(facts: seq<Item>, doc: Id, version: Id, claims: seq<Claim>, c: Claim)
    requires KeysUnique(facts) && FactsTell(facts, doc, version, claims)
    ensures KeysUnique(Put(facts, ClaimFact(doc, version, c)))
    ensures FactsTell(Put(facts, ClaimFact(doc, version, c)), doc, version, claims + [c])
  {
    hide KeysUnique, Put;
    var f := ClaimFact(doc, version, c);
    PutExact(facts, f);
    forall x | x in facts && x.key == f.key ensures x == f {
      var d :| d in claims && x == ClaimFact(doc, version, d);
    }
    assert forall x :: x in Put(facts, f) <==> x in facts || x == f;
    assert c in claims + [c];
    assert forall d :: d in claims + [c] <==> d in claims || d == c;
  }

  /** A relation's entities, their mentions, its fact, and one piece of evidence for each of its chunks. */
  method AddRelation(w: World, r0: Records, doc: Id, version: Id, c: Claim, confidence: real,
                     ghost notes: seq<Note>, ghost claims: seq<Claim>)
    returns (r: Records)
    requires Told(w, r0, doc, version, notes, claims) && OwnChunks(w, c.chunks, doc)
    ensures Told(w, r, doc, version, notes + NotesOf(c, confidence), claims + [c])
  {
    hide EntitiesOk, EntitiesTell, MentionsTell, FactsTell, EvidenceTells, KeysUnique, Put;
    var s, o := Note(c.subject, [], c.chunks, confidence), Note(c.object_, [], c.chunks, confidence);
    var r1 := UpsertLlmEntity(w, r0, doc, s, version, notes, claims);
    var r2 := UpsertLlmEntity(w, r1, doc, o, version, notes + [s], claims);
    assert notes + [s] + [o] == notes + NotesOf(c, confidence);
    var key := FactKey(version, c.chunks, EntityOf(c.subject), c.predicate_, EntityOf(c.object_));
    var evidence, ids := NoteEvidence(r2.evidence, doc, version, c, claims);
    var f := Fact(key, doc, EntityOf(c.subject), c.predicate_, EntityOf(c.object_), c.chunks, ids);
    PutFact(r2.facts, doc, version, claims, c);
    r := r2.(facts := Put(r2.facts, f), evidence := evidence);
  }

  lemma NothingTold(w: World, doc: Id, version: Id)
    ensures Told(w, Records([], [], [], []), doc, version, [], [])
  {
  }

  method TakeEntities(w: World, doc: Id, ghost version: Id, known: seq<Id>, entities: seq<LlmEntity>, appears: (Name, Id) -> bool)
    returns (r: Records)
    requires OwnChunks(w, known, doc)
    ensures Told(w, r, doc, version, EntityNotes(known, entities, appears), [])
  {
    hide Told;
    r := Records([], [], [], []);
    NothingTold(w, doc, version);
    for k := 0 to |entities|
      invariant Told(w, r, doc, version, EntityNotes(known, entities[..k], appears), [])
    {
      var e := entities[k];
      assert entities[..k + 1][..k] == entities[..k];
      if e.name.None? {
        continue;
      }
      var t := Note(e.name.value, e.aliases, ResolveChunks(e.listed, known, e.name, appears), e.confidence);
      r := UpsertLlmEntity(w, r, doc, t, version, EntityNotes(known, entities[..k], appears), []);
    }
    assert entities[..|entities|] == entities;
  }

  method TakeRelations(w: World, r0: Records, doc: Id, version: Id, known: seq<Id>, relations: seq<LlmRelation>,
                       appears: (Name, Id) -> bool, ghost notes: seq<Note>)
    returns (r: Records)
    requires OwnChunks(w, known, doc) && Told(w, r0, doc, version, notes, [])
    ensures Told(w, r, doc, version, notes + RelationNotes(known, relations, appears), Claims(known, relations, appears))
  {
    hide Told;
    r := r0;
    assert notes + [] == notes;
    for k := 0 to |relations|
      invariant Told(w, r, doc, version, notes + RelationNotes(known, relations[..k], appears), Claims(known, relations[..k], appears))
    {
      var rel := relations[k];
      assert relations[..k + 1][..k] == relations[..k];
      if rel.subject.None? || rel.object_.None? {
        continue;
      }
      var c := Claim(rel.subject.value, rel.predicate_, rel.object_.value, ResolveChunks(rel.listed, known, None, appears));
      ghost var before := RelationNotes(known, relations[..k], appears);
      r := AddRelation(w, r, doc, version, c, rel.confidence, notes + before, Claims(known, relations[..k], appears));
      assert notes + before + NotesOf(c, rel.confidence) == notes + RelationNotes(known, relations[..k + 1], appears);
    }
    assert relations[..|relations|] == relations;
  }

  // ----- one payload's records -----

  /** Records that hold exactly what the notes and claims give, one entity to a name. */
  ghost predicate RecordsTell(r: Records, doc: Id, version: Id, notes: seq<Note>, claims: seq<Claim>) {
    && EntitiesTell(r.entities, notes) && MentionsTell(r.mentions, doc, notes)
    && FactsTell(r.facts, doc, version, claims) && EvidenceTells(r.evidence, doc, version, claims)
  }

  /** Notes and claims of one document's chunks, every claim's names noted. */
  ghost predicate Sound(w: World, doc: Id, notes: seq<Note>, claims: seq<Claim>) {
    && (forall t :: t in notes ==> OwnChunks(w, t.chunks, doc))
    && (forall c :: c in claims ==> OwnChunks(w, c.chunks, doc) && NotedIn(notes, c.subject) && NotedIn(notes, c.object_))
  }

  lemma {:induction false} EntityNotesSound(w: World, doc: Id, known: seq<Id>, entities: seq<LlmEntity>, appears: (Name, Id) -> bool)
    requires OwnChunks(w, known, doc)
    ensures forall t :: t in EntityNotes(known, entities, appears) ==> OwnChunks(w, t.chunks, doc)
  {
    hide ResolveChunks;
    if entities != [] {
      EntityNotesSound(w, doc, known, entities[..|entities| - 1], appears);
    }
  }

  lemma {:induction false} RelationNotesSound(w: World, doc: Id, known: seq<Id>, relations: seq<LlmRelation>, appears: (Name, Id) -> bool)
    requires OwnChunks(w, known, doc)
    ensures Sound(w, doc, RelationNotes(known, relations, appears), Claims(known, relations, appears))
  {
    hide ResolveChunks, NotedIn;
    if relations != [] {
      var n := |relations| - 1;
      RelationNotesSound(w, doc, known, relations[..n], appears);
      if Complete(relations[n]) {
        var c := ClaimOf(known, relations[n], appears);
        NotesNoted(RelationNotes(known, relations[..n], appears), NotesOf(c, relations[n].confidence));
        NotesNoted(NotesOf(c, relations[n].confidence), []);
        ClaimNoted(c, relations[n].confidence);
      }
    }
  }

  lemma NotesNoted(a: seq<Note>, b: seq<Note>)
    ensures forall n :: NotedIn(a + b, n) <==> NotedIn(a, n) || NotedIn(b, n)
  {
    assert forall t :: t in a + b <==> t in a || t in b;
  }

  lemma ClaimNoted(c: Claim, confidence: real)
    ensures NotedIn(NotesOf(c, confidence), c.subject) && NotedIn(NotesOf(c, confidence), c.object_)
  {
    assert NotesOf(c, confidence)[0] in NotesOf(c, confidence) && NotesOf(c, confidence)[1] in NotesOf(c, confidence);
  }

  lemma PayloadIsSound(w: World, doc: Id, known: seq<Id>, p: Payload, appears: (Name, Id) -> bool)
    requires OwnChunks(w, known, doc)
    ensures Sound(w, doc, Notes(known, p, appears), Claims(known, p.relations, appears))
  {
    hide OwnChunks, NotedIn, EntityNotes, RelationNotes;
    EntityNotesSound(w, doc, known, p.entities, appears);
    RelationNotesSound(w, doc, known, p.relations, appears);
    NotesNoted(EntityNotes(known, p.entities, appears), RelationNotes(known, p.relations, appears));
  }

  /** Such records refer only to each other. */
  lemma TellingRecordsAreABuild(w: World, r: Records, doc: Id, version: Id, notes: seq<Note>, claims: seq<Claim>)
    requires w.isDoc(doc) && w.owner(version) == doc && Sound(w, doc, notes, claims)
    requires RecordsTell(r, doc, version, notes, claims) && forall x :: x in r.entities ==> EntityOk(w, x)
    ensures BuildOf(w, r, doc)
  {
    hide EntitiesTell, EvidenceTells, FactsTell;
    forall x | x in r.mentions ensures MentionOk(w, r, x) && OwnerOf(w, x.key) == doc {
      var t, i :| t in notes && 0 <= i < |t.chunks| && x == MentionIn(doc, t, i);
      assert t.chunks[i] in t.chunks;
      NotedHasKey(w, r.entities, notes, t.name);
    }
    forall x | x in r.facts ensures FactOk(w, r, x) && OwnerOf(w, x.key) == doc {
      FactIsOk(w, r, doc, version, notes, claims, x);
    }
    forall x | x in r.evidence ensures EvidenceOk(w, x) && OwnerOf(w, x.key) == doc {
      EvidenceIsOk(w, r, doc, version, claims, x);
    }
  }

  lemma NotedHasKey(w: World, entities: seq<Item>, notes: seq<Note>, n: Name)
    requires EntitiesTell(entities, notes) && NotedIn(notes, n) && forall x :: x in entities ==> EntityOk(w, x)
    ensures HasKey(entities, EntityOf(n))
  {
    assert Named(entities, n);
  }

  lemma FactIsOk(w: World, r: Records, doc: Id, version: Id, notes: seq<Note>, claims: seq<Claim>, x: Item)
    requires w.owner(version) == doc && Sound(w, doc, notes, claims)
    requires RecordsTell(r, doc, version, notes, claims) && (forall y :: y in r.entities ==> EntityOk(w, y)) && x in r.facts
    ensures FactOk(w, r, x) && OwnerOf(w, x.key) == doc
  {
    hide EntitiesTell, NotedIn;
    var c :| c in claims && x == ClaimFact(doc, version, c);
    NotedHasKey(w, r.entities, notes, c.subject);
    NotedHasKey(w, r.entities, notes, c.object_);
    forall k | k in x.evidence ensures k.EvidenceKey? && k.fact == x.key && HasKey(r.evidence, k) {
      var i :| 0 <= i < |x.evidence| && x.evidence[i] == k;
      assert ClaimEvidence(doc, version, c, c.chunks[i]) in r.evidence;
    }
  }

  lemma EvidenceIsOk(w: World, r: Records, doc: Id, version: Id, claims: seq<Claim>, x: Item)
    requires w.owner(version) == doc && EvidenceTells(r.evidence, doc, version, claims) && x in r.evidence
    ensures EvidenceOk(w, x) && OwnerOf(w, x.key) == doc
  {
    var c, chunk :| c in claims && chunk in c.chunks && x == ClaimEvidence(doc, version, c, chunk);
    assert OwnerOf(w, x.key) == OwnerOf(w, ClaimKey(version, c));
  }

  ghost predicate SameRecords(r0: Records, r: Records) {
    && (forall x :: x in r.entities <==> x in r0.entities)
    && (forall x :: x in r.mentions <==> x in r0.mentions)
    && (forall x :: x in r.facts <==> x in r0.facts)
    && (forall x :: x in r.evidence <==> x in r0.evidence)
  }

  /** Sorting changes nothing of this. */
  lemma SortedTells(w: World, r0: Records, r: Records, doc: Id, version: Id, notes: seq<Note>, claims: seq<Claim>)
    requires Told(w, r0, doc, version, notes, claims) && SameRecords(r0, r)
    ensures RecordsTell(r, doc, version, notes, claims) && forall x :: x in r.entities ==> EntityOk(w, x)
  {
    hide MentionedIn, NotedIn, NotedAt, NotedAs, MostConfident;
    forall n ensures Named(r.entities, n) <==> Named(r0.entities, n) {
    }
    forall n, c ensures SeenIn(r.entities, n, c) <==> SeenIn(r0.entities, n, c) {
    }
    forall n, a ensures AliasOf(r.entities, n, a) <==> AliasOf(r0.entities, n, a) {
    }
  }

  /** `known` are the ids of the batch's chunks: the records hold exactly what the payload says of them. */
  method RecordsFromPayload(w: World, doc: Id, version: Id, known: seq<Id>, p: Payload, appears: (Name, Id) -> bool)
    returns (r: Records)
    requires w.isDoc(doc) && w.owner(version) == doc && OwnChunks(w, known, doc)
    ensures BuildOf(w, r, doc)
    ensures RecordsTell(r, doc, version, Notes(known, p, appears), Claims(known, p.relations, appears))
    ensures forall x :: x in r.entities ==> EntityOk(w, x)
  {
    hide Told, RecordsTell, BuildOf, SortByRank, Sound, EntityOk;
    ghost var notes, claims := Notes(known, p, appears), Claims(known, p.relations, appears);
    var built := TakeEntities(w, doc, version, known, p.entities, appears);
    built := TakeRelations(w, built, doc, version, known, p.relations, appears, EntityNotes(known, p.entities, appears));
    r := Records(SortByRank(w, built.entities), SortByRank(w, built.mentions), SortByRank(w, built.facts), SortByRank(w, built.evidence));
    SortedTells(w, built, r, doc, version, notes, claims);
    PayloadIsSound(w, doc, known, p, appears);
    TellingRecordsAreABuild(w, r, doc, version, notes, claims);
  }

  // ----- merging batches -----

  function MergedEntity(a: Item, b: Item): Item
    requires a.Entity? && b.Entity?
  {
    Entity(a.key, a.name, Dedupe(a.aliases + b.aliases), Dedupe(a.chunks + b.chunks), Larger(a.confidence, b.confidence))
  }

  method FindKey(d: seq<Item>, k: Key) returns (x: Option<Item>)
    ensures x.Some? ==> x.value in d && x.value.key == k
    ensures x.None? <==> !HasKey(d, k)
  {
    for i := 0 to |d|
      invariant forall j :: 0 <= j < i ==> d[j].key != k
    {
      if d[i].key == k {
        assert d[i] in d;
        return Some(d[i]);
      }
    }
    return None;
  }

  ghost predicate EntityDict(w: World, d: seq<Item>) {
    KeysUnique(d) && forall x :: x in d ==> EntityOk(w, x)
  }

  ghost predicate SeenUnder(entities: seq<Item>, k: Key, chunk: Id) {
    exists x :: x in entities && x.key == k && x.Entity? && chunk in x.chunks
  }

  ghost predicate AliasUnder(entities: seq<Item>, k: Key, alias: nat) {
    exists x :: x in entities && x.key == k && x.Entity? && alias in x.aliases
  }

  /** `v` is the largest confidence of the entities with a key. */
  ghost predicate MostConfidentUnder(entities: seq<Item>, k: Key, v: real) {
    && (exists x :: x in entities && x.key == k && x.Entity? && x.confidence == v)
    && (forall x :: x in entities && x.key == k && x.Entity? ==> x.confidence <= v)
  }

  /** `d` has an entity for each key of `xs`, with all chunks and aliases and the largest confidence found under it. */
  ghost predicate Gathers(d: seq<Item>, xs: seq<Item>) {
    && (forall k :: HasKey(d, k) <==> HasKey(xs, k))
    && (forall k, c :: SeenUnder(d, k, c) <==> SeenUnder(xs, k, c))
    && (forall k, a :: AliasUnder(d, k, a) <==> AliasUnder(xs, k, a))
    && (forall x :: x in d ==> x.Entity? && MostConfidentUnder(xs, x.key, x.confidence))
  }

  lemma NextEntity(xs: seq<Item>, e: Item)
    requires e.Entity?
    ensures forall k :: HasKey(xs + [e], k) <==> HasKey(xs, k) || k == e.key
    ensures forall k, c :: SeenUnder(xs + [e], k, c) <==> SeenUnder(xs, k, c) || (k == e.key && c in e.chunks)
    ensures forall k, a :: AliasUnder(xs + [e], k, a) <==> AliasUnder(xs, k, a) || (k == e.key && a in e.aliases)
    ensures forall k, v :: k != e.key ==> (MostConfidentUnder(xs + [e], k, v) <==> MostConfidentUnder(xs, k, v))
    ensures forall v :: MostConfidentUnder(xs, e.key, v) ==> MostConfidentUnder(xs + [e], e.key, Larger(v, e.confidence))
    ensures !HasKey(xs, e.key) ==> MostConfidentUnder(xs + [e], e.key, e.confidence)
  {
    assert e in xs + [e];
    assert forall x :: x in xs + [e] <==> x in xs || x == e;
    forall v | MostConfidentUnder(xs, e.key, v) ensures MostConfidentUnder(xs + [e], e.key, Larger(v, e.confidence)) {
      var x :| x in xs && x.key == e.key && x.Entity? && x.confidence == v;
      assert x in xs + [e];
    }
  }

  /** The entity of a key in a dictionary: what is found under the key is what it has. */
  lemma UnderKey(d: seq<Item>, x: Item)
    requires KeysUnique(d) && x in d && x.Entity?
    ensures HasKey(d, x.key)
    ensures forall c :: SeenUnder(d, x.key, c) <==> c in x.chunks
    ensures forall a :: AliasUnder(d, x.key, a) <==> a in x.aliases
  {
    forall y | y in d && y.key == x.key ensures y == x {
      var i :| 0 <= i < |d| && d[i] == x;
      var j :| 0 <= j < |d| && d[j] == y;
    }
  }

  lemma NothingUnder(d: seq<Item>, k: Key)
    requires !HasKey(d, k)
    ensures forall c :: !SeenUnder(d, k, c)
    ensures forall a :: !AliasUnder(d, k, a)
  {
  }

  /** Replacing or adding one entity of a dictionary. */
  lemma PutUnder(d: seq<Item>, x: Item)
    requires KeysUnique(d) && x.Entity?
    ensures forall k :: HasKey(Put(d, x), k) <==> HasKey(d, k) || k == x.key
    ensures forall k, c :: SeenUnder(Put(d, x), k, c) <==> if k == x.key then c in x.chunks else SeenUnder(d, k, c)
    ensures forall k, a :: AliasUnder(Put(d, x), k, a) <==> if k == x.key then a in x.aliases else AliasUnder(d, k, a)
  {
    hide KeysUnique, Put;
    PutExact(d, x);
    assert x in Put(d, x);
  }

  lemma GatherMore(d: seq<Item>, xs: seq<Item>, e: Item, y: Item)
    requires KeysUnique(d) && Gathers(d, xs) && e.Entity? && y in d && y.key == e.key && y.Entity?
    ensures Gathers(Put(d, MergedEntity(y, e)), xs + [e])
  {
    hide HasKey, SeenUnder, AliasUnder, MostConfidentUnder, KeysUnique, Put, Dedupe;
    var x := MergedEntity(y, e);
    NextEntity(xs, e);
    PutUnder(d, x);
    PutExact(d, x);
    UnderKey(d, y);
    forall k, c ensures SeenUnder(Put(d, x), k, c) <==> SeenUnder(xs + [e], k, c) {
    }
    forall k, a ensures AliasUnder(Put(d, x), k, a) <==> AliasUnder(xs + [e], k, a) {
    }
  }

  lemma GatherNew(d: seq<Item>, xs: seq<Item>, e: Item)
    requires KeysUnique(d) && Gathers(d, xs) && e.Entity? && !HasKey(d, e.key)
    ensures Gathers(Put(d, e), xs + [e])
  {
    hide HasKey, SeenUnder, AliasUnder, MostConfidentUnder, KeysUnique, Put;
    NextEntity(xs, e);
    PutUnder(d, e);
    PutExact(d, e);
    NothingUnder(d, e.key);
    forall k, c ensures SeenUnder(Put(d, e), k, c) <==> SeenUnder(xs + [e], k, c) {
    }
    forall k, a ensures AliasUnder(Put(d, e), k, a) <==> AliasUnder(xs + [e], k, a) {
    }
  }

  lemma GatherAlone(d: seq<Item>)
    requires KeysUnique(d) && forall x :: x in d ==> x.Entity?
    ensures Gathers(d, d)
  {
    forall x | x in d ensures MostConfidentUnder(d, x.key, x.confidence) {
      forall y | y in d && y.key == x.key ensures y == x {
        var i :| 0 <= i < |d| && d[i] == x;
        var j :| 0 <= j < |d| && d[j] == y;
      }
    }
  }

  /**
   The entities of two batches, merged by id, the last of each id on the left: aliases and
   chunks accumulate, and the largest confidence wins.
   */
  method MergeEntities(w: World, left: seq<Item>, right: seq<Item>) returns (d: seq<Item>)
    requires (forall x :: x in left ==> EntityOk(w, x)) && (forall x :: x in right ==> EntityOk(w, x))
    ensures EntityDict(w, d) && Gathers(d, PutAll([], left) + right)
  {
    d := PutAll([], left);
    PutAllExact([], left);
    forall x | x in d ensures EntityOk(w, x) {
      LatestHasKey(left, x);
    }
    GatherAlone(d);
    assert d + right[..0] == d;
    hide Gathers, KeysUnique, Put, PutAll, HasKey;
    for i := 0 to |right|
      invariant EntityDict(w, d) && Gathers(d, PutAll([], left) + right[..i])
    {
      var e := right[i];
      assert PutAll([], left) + right[..i] + [e] == PutAll([], left) + right[..i + 1] && e in right;
      var current := FindKey(d, e.key);
      var x := if current.None? then e else MergedEntity(current.value, e);
      if current.None? {
        GatherNew(d, PutAll([], left) + right[..i], e);
      } else {
        GatherMore(d, PutAll([], left) + right[..i], e, current.value);
      }
      PutExact(d, x);
      d := Put(d, x);
    }
    assert right[..|right|] == right;
  }

  function MergedSection(w: World, left: seq<Item>, right: seq<Item>): seq<Item> {
    SortByRank(w, PutAll(PutAll([], left), right))
  }

  /** A merged section: the last item of each key on the right, and of the keys only on the left, the last there. */
  lemma MergedSectionExact(w: World, left: seq<Item>, right: seq<Item>)
    ensures forall x :: x in MergedSection(w, left, right) <==> Latest(right, x) || (Latest(left, x) && !HasKey(right, x.key))
    ensures forall x :: x in MergedSection(w, left, right) ==> x in left || x in right
    ensures forall k :: HasKey(MergedSection(w, left, right), k) <==> HasKey(left, k) || HasKey(right, k)
  {
    PutAllExact([], left);
    var d := PutAll([], left);
    PutAllExact(d, right);
    forall x ensures (Latest(left, x) ==> x in left) && (Latest(right, x) ==> x in right) {
      LatestHasKey(left, x);
      LatestHasKey(right, x);
    }
    forall k ensures HasKey(MergedSection(w, left, right), k) <==> HasKey(left, k) || HasKey(right, k) {
      if HasKey(right, k) {
        var y := LatestExists(right, k);
        assert y in MergedSection(w, left, right);
      } else if HasKey(left, k) {
        var y := LatestExists(left, k);
        assert y in d && y in MergedSection(w, left, right);
      }
    }
  }

  lemma MentionInLarger(w: World, r0: Records, r: Records, x: Item)
    requires MentionOk(w, r0, x) && forall k :: HasKey(r0.entities, k) ==> HasKey(r.entities, k)
    ensures MentionOk(w, r, x)
  {
  }

  lemma SnocUnique(xs: seq<Item>, x: Item)
    requires KeysUnique(xs) && forall y :: y in xs ==> y.key != x.key
    ensures KeysUnique(xs + [x])
  {
  }

  lemma InitUnique(xs: seq<Item>)
    requires KeysUnique(xs) && xs != []
    ensures KeysUnique(xs[..|xs| - 1]) && forall y :: y in xs[..|xs| - 1] ==> y in xs && y.key != xs[|xs| - 1].key
  {
  }

  lemma {:induction false} InsertKeepsKeys(w: World, xs: seq<Item>, x: Item)
    requires KeysUnique(xs) && forall y :: y in xs ==> y.key != x.key
    ensures KeysUnique(InsertByRank(w, xs, x))
  {
    if xs == [] {
      assert [] + [x] == [x];
      SnocUnique([], x);
    } else {
      hide KeysUnique;
      var n := |xs| - 1;
      InitUnique(xs);
      InsertKeepsKeys(w, xs[..n], x);
      SnocUnique(xs, x);
      SnocUnique(InsertByRank(w, xs[..n], x), xs[n]);
    }
  }

  lemma {:induction false} SortKeepsKeys(w: World, xs: seq<Item>)
    requires KeysUnique(xs)
    ensures KeysUnique(SortByRank(w, xs))
  {
    if xs != [] {
      var n := |xs| - 1;
      SortKeepsKeys(w, xs[..n]);
      assert forall y :: y in xs[..n] ==> y.key != xs[n].key;
      InsertKeepsKeys(w, SortByRank(w, xs[..n]), xs[n]);
    }
  }

  lemma SameMembersGather(d: seq<Item>, r: seq<Item>, xs: seq<Item>)
    requires Gathers(d, xs) && forall x :: x in r <==> x in d
    ensures Gathers(r, xs)
  {
    hide MostConfidentUnder;
    forall k ensures HasKey(r, k) <==> HasKey(d, k) {
    }
    forall k, c ensures SeenUnder(r, k, c) <==> SeenUnder(d, k, c) {
    }
    forall k, a ensures AliasUnder(r, k, a) <==> AliasUnder(d, k, a) {
    }
  }

  /**
   Merging two batches' records: entities gathered by id, in the other sections the last item
   of each id; they again refer only to each other.
   */
  method MergeLlmRecords(w: World, left: Records, right: Records, doc: Id) returns (r: Records)
    requires BuildOf(w, left, doc) && BuildOf(w, right, doc)
    ensures BuildOf(w, r, doc) && KeysUnique(r.entities)
    ensures Gathers(r.entities, PutAll([], left.entities) + right.entities)
    ensures forall x :: x in r.mentions <==> Latest(right.mentions, x) || (Latest(left.mentions, x) && !HasKey(right.mentions, x.key))
    ensures forall x :: x in r.facts <==> Latest(right.facts, x) || (Latest(left.facts, x) && !HasKey(right.facts, x.key))
    ensures forall x :: x in r.evidence <==> Latest(right.evidence, x) || (Latest(left.evidence, x) && !HasKey(right.evidence, x.key))
  {
    hide EntityOk, MentionOk, FactOk, EvidenceOk, HasKey, MergedSection, OwnerOf, Latest, Gathers, KeysUnique, PutAll;
    var entities := MergeEntities(w, left.entities, right.entities);
    r := Records(SortByRank(w, entities), MergedSection(w, left.mentions, right.mentions),
                 MergedSection(w, left.facts, right.facts), MergedSection(w, left.evidence, right.evidence));
    SortKeepsKeys(w, entities);
    SameMembersGather(entities, r.entities, PutAll([], left.entities) + right.entities);
    GatheredKeys(r.entities, left.entities, right.entities);
    MergedSectionExact(w, left.mentions, right.mentions);
    MergedSectionExact(w, left.facts, right.facts);
    MergedSectionExact(w, left.evidence, right.evidence);
    forall x | x in r.mentions ensures MentionOk(w, r, x) {
      MentionInLarger(w, if x in left.mentions then left else right, r, x);
    }
    forall x | x in r.facts ensures FactOk(w, r, x) {
      MoreEvidence(w, if x in left.facts then left else right, r, x);
    }
  }

  lemma GatheredKeys(d: seq<Item>, left: seq<Item>, right: seq<Item>)
    requires Gathers(d, PutAll([], left) + right)
    ensures forall k :: HasKey(d, k) <==> HasKey(left, k) || HasKey(right, k)
  {
    hide SeenUnder, AliasUnder, MostConfidentUnder, KeysUnique, PutAll;
    PutAllExact([], left);
    var xs := PutAll([], left) + right;
    assert forall x :: x in xs <==> x in PutAll([], left) || x in right;
    forall k ensures HasKey(xs, k) <==> HasKey(left, k) || HasKey(right, k) {
      if HasKey(left, k) {
        var y := LatestExists(left, k);
        assert y in xs;
      }
      if HasKey(xs, k) {
        var y :| y in xs && y.key == k;
        LatestHasKey(left, y);
      }
      if HasKey(right, k) {
        var y :| y in right && y.key == k;
        assert y in xs;
      }
    }
  }

  // ----- the records of all batches -----

  ghost predicate KeyNoted(notes: seq<Note>, k: Key) {
    exists t :: t in notes && EntityOf(t.name) == k
  }

  ghost predicate KeyNotedAt(notes: seq<Note>, k: Key, chunk: Id) {
    exists t :: t in notes && EntityOf(t.name) == k && chunk in t.chunks
  }

  ghost predicate KeyNotedAs(notes: seq<Note>, k: Key, alias: nat) {
    exists t :: t in notes && EntityOf(t.name) == k && alias in t.aliases
  }

  ghost predicate KeyMostConfident(notes: seq<Note>, k: Key, v: real) {
    && (exists t :: t in notes && EntityOf(t.name) == k && t.confidence == v)
    && (forall t :: t in notes && EntityOf(t.name) == k ==> t.confidence <= v)
  }

  /** One entity for each id noted, under any spelling, with all chunks and aliases noted and the largest confidence. */
  ghost predicate IdsTell(entities: seq<Item>, notes: seq<Note>) {
    && KeysUnique(entities)
    && (forall k :: HasKey(entities, k) <==> KeyNoted(notes, k))
    && (forall k, c :: SeenUnder(entities, k, c) <==> KeyNotedAt(notes, k, c))
    && (forall k, a :: AliasUnder(entities, k, a) <==> KeyNotedAs(notes, k, a))
    && (forall x :: x in entities ==> x.Entity? && KeyMostConfident(notes, x.key, x.confidence))
  }

  /** All of a build's records, over every batch: the entities by id, the rest exactly. */
  ghost predicate BatchesTell(r: Records, doc: Id, version: Id, notes: seq<Note>, claims: seq<Claim>) {
    && IdsTell(r.entities, notes) && MentionsTell(r.mentions, doc, notes)
    && FactsTell(r.facts, doc, version, claims) && EvidenceTells(r.evidence, doc, version, claims)
  }

  lemma NoteUnder(entities: seq<Item>, notes: seq<Note>, t: Note) returns (x: Item)
    requires EntitiesTell(entities, notes) && t in notes && forall y :: y in entities ==> y.key == EntityOf(y.name)
    ensures x in entities && x.Entity? && x.key == EntityOf(t.name) && t.confidence <= x.confidence
  {
    assert NotedIn(notes, t.name) && Named(entities, t.name);
    x :| x in entities && x.Entity? && x.name == t.name;
  }

  /** Seen by id, the entities of one payload tell of the ids its notes name. */
  lemma SpellingsTell(entities: seq<Item>, notes: seq<Note>)
    requires EntitiesTell(entities, notes) && forall x :: x in entities ==> x.Entity? && x.key == EntityOf(x.name)
    ensures forall k :: HasKey(entities, k) <==> KeyNoted(notes, k)
    ensures forall k, c :: SeenUnder(entities, k, c) <==> KeyNotedAt(notes, k, c)
    ensures forall k, a :: AliasUnder(entities, k, a) <==> KeyNotedAs(notes, k, a)
  {
    forall k ensures HasKey(entities, k) <==> KeyNoted(notes, k) {
      if HasKey(entities, k) {
        var x :| x in entities && x.key == k;
        assert Named(entities, x.name);
      }
      if KeyNoted(notes, k) {
        var t :| t in notes && EntityOf(t.name) == k;
        var x := NoteUnder(entities, notes, t);
      }
    }
    forall k, c ensures SeenUnder(entities, k, c) <==> KeyNotedAt(notes, k, c) {
      if SeenUnder(entities, k, c) {
        var x :| x in entities && x.key == k && x.Entity? && c in x.chunks;
        assert SeenIn(entities, x.name, c);
      }
      if KeyNotedAt(notes, k, c) {
        var t :| t in notes && EntityOf(t.name) == k && c in t.chunks;
        assert NotedAt(notes, t.name, c);
      }
    }
    forall k, a ensures AliasUnder(entities, k, a) <==> KeyNotedAs(notes, k, a) {
      if AliasUnder(entities, k, a) {
        var x :| x in entities && x.key == k && x.Entity? && a in x.aliases;
        assert AliasOf(entities, x.name, a);
      }
      if KeyNotedAs(notes, k, a) {
        var t :| t in notes && EntityOf(t.name) == k && a in t.aliases;
        assert NotedAs(notes, t.name, a);
      }
    }
  }

  lemma UnderBoth(left: seq<Item>, right: seq<Item>, xs: seq<Item>)
    requires forall x :: x in xs <==> x in left || x in right
    ensures forall k :: HasKey(xs, k) <==> HasKey(left, k) || HasKey(right, k)
    ensures forall k, c :: SeenUnder(xs, k, c) <==> SeenUnder(left, k, c) || SeenUnder(right, k, c)
    ensures forall k, a :: AliasUnder(xs, k, a) <==> AliasUnder(left, k, a) || AliasUnder(right, k, a)
  {
    forall k ensures HasKey(xs, k) <==> HasKey(left, k) || HasKey(right, k) {
    }
    forall k, c ensures SeenUnder(xs, k, c) <==> SeenUnder(left, k, c) || SeenUnder(right, k, c) {
    }
    forall k, a ensures AliasUnder(xs, k, a) <==> AliasUnder(left, k, a) || AliasUnder(right, k, a) {
    }
  }

  lemma NotedInBoth(a: seq<Note>, b: seq<Note>)
    ensures forall k :: KeyNoted(a + b, k) <==> KeyNoted(a, k) || KeyNoted(b, k)
    ensures forall k, c :: KeyNotedAt(a + b, k, c) <==> KeyNotedAt(a, k, c) || KeyNotedAt(b, k, c)
    ensures forall k, l :: KeyNotedAs(a + b, k, l) <==> KeyNotedAs(a, k, l) || KeyNotedAs(b, k, l)
    ensures forall doc, x :: MentionedIn(a + b, doc, x) <==> MentionedIn(a, doc, x) || MentionedIn(b, doc, x)
  {
    assert forall t :: t in a + b <==> t in a || t in b;
    forall doc, x ensures MentionedIn(a + b, doc, x) <==> MentionedIn(a, doc, x) || MentionedIn(b, doc, x) {
      if MentionedIn(a, doc, x) {
        var t, i :| t in a && 0 <= i < |t.chunks| && x == MentionIn(doc, t, i);
        assert t in a + b;
      }
      if MentionedIn(b, doc, x) {
        var t, i :| t in b && 0 <= i < |t.chunks| && x == MentionIn(doc, t, i);
        assert t in a + b;
      }
    }
  }

  lemma ConfidenceOfBoth(left: seq<Item>, right: seq<Item>, a: seq<Note>, b: seq<Note>, xs: seq<Item>, k: Key, v: real)
    requires IdsTell(left, a) && EntitiesTell(right, b) && forall y :: y in right ==> y.Entity? && y.key == EntityOf(y.name)
    requires (forall x :: x in xs <==> x in left || x in right) && MostConfidentUnder(xs, k, v)
    ensures KeyMostConfident(a + b, k, v)
  {
    var x :| x in xs && x.key == k && x.Entity? && x.confidence == v;
    assert forall t :: t in a + b <==> t in a || t in b;
    if x in left {
      var t :| t in a && EntityOf(t.name) == k && t.confidence == v;
      assert t in a + b;
    } else {
      assert MostConfident(b, x.name, v);
      var t :| t in b && t.name == x.name && t.confidence == v;
      assert t in a + b;
    }
    forall t | t in a + b && EntityOf(t.name) == k ensures t.confidence <= v {
      if t in a {
        assert KeyNoted(a, k) && HasKey(left, k);
        var y :| y in left && y.key == k;
        assert KeyMostConfident(a, k, y.confidence) && y in xs;
      } else {
        var y := NoteUnder(right, b, t);
        assert y in xs;
      }
    }
  }

  lemma MergedIdsTell(left: seq<Item>, right: seq<Item>, a: seq<Note>, b: seq<Note>, d: seq<Item>)
    requires IdsTell(left, a) && EntitiesTell(right, b) && forall x :: x in right ==> x.Entity? && x.key == EntityOf(x.name)
    requires KeysUnique(d) && Gathers(d, PutAll([], left) + right)
    ensures IdsTell(d, a + b)
  {
    var xs := PutAll([], left) + right;
    PutAllExact([], left);
    forall x ensures x in xs <==> x in left || x in right {
      LatestHasKey(left, x);
    }
    hide KeysUnique, PutAll, MostConfidentUnder, KeyMostConfident, HasKey, SeenUnder, AliasUnder, KeyNoted, KeyNotedAt, KeyNotedAs;
    SpellingsTell(right, b);
    UnderBoth(left, right, xs);
    NotedInBoth(a, b);
    forall x | x in d ensures KeyMostConfident(a + b, x.key, x.confidence) {
      ConfidenceOfBoth(left, right, a, b, xs, x.key, x.confidence);
    }
  }

  lemma {:induction false} LatestIfSame(xs: seq<Item>, x: Item)
    requires x in xs && forall y :: y in xs && y.key == x.key ==> y == x
    ensures Latest(xs, x)
  {
    var n := |xs| - 1;
    if xs[n] != x {
      assert xs == xs[..n] + [xs[n]];
      LatestIfSame(xs[..n], x);
    }
  }

  /** Where a key says all of its item, merging two sections unites them. */
  lemma SectionsUnite(left: seq<Item>, right: seq<Item>, r: seq<Item>)
    requires forall x :: x in r <==> Latest(right, x) || (Latest(left, x) && !HasKey(right, x.key))
    requires forall x, y :: (x in left || x in right) && (y in left || y in right) && x.key == y.key ==> x == y
    ensures forall x :: x in r <==> x in left || x in right
  {
    hide Latest;
    forall x ensures x in r <==> x in left || x in right {
      LatestHasKey(left, x);
      LatestHasKey(right, x);
      if x in right {
        LatestIfSame(right, x);
      } else if x in left {
        LatestIfSame(left, x);
        assert !HasKey(right, x.key);
      }
    }
  }

  lemma MentionsUnite(left: seq<Item>, right: seq<Item>, r: seq<Item>, doc: Id, a: seq<Note>, b: seq<Note>)
    requires MentionsTell(left, doc, a) && MentionsTell(right, doc, b)
    requires forall x :: x in r <==> Latest(right, x) || (Latest(left, x) && !HasKey(right, x.key))
    ensures MentionsTell(r, doc, a + b)
  {
    hide Latest;
    NotedInBoth(a, b);
    forall x, y | (x in left || x in right) && (y in left || y in right) && x.key == y.key ensures x == y {
      assert MentionedIn(a + b, doc, x) && MentionedIn(a + b, doc, y);
    }
    SectionsUnite(left, right, r);
  }

  lemma FactsUnite(left: seq<Item>, right: seq<Item>, r: seq<Item>, doc: Id, version: Id, a: seq<Claim>, b: seq<Claim>)
    requires FactsTell(left, doc, version, a) && FactsTell(right, doc, version, b)
    requires forall x :: x in r <==> Latest(right, x) || (Latest(left, x) && !HasKey(right, x.key))
    ensures FactsTell(r, doc, version, a + b)
  {
    hide Latest;
    assert forall c :: c in a + b <==> c in a || c in b;
    SectionsUnite(left, right, r);
  }

  lemma EvidenceUnites(left: seq<Item>, right: seq<Item>, r: seq<Item>, doc: Id, version: Id, a: seq<Claim>, b: seq<Claim>)
    requires EvidenceTells(left, doc, version, a) && EvidenceTells(right, doc, version, b)
    requires forall x :: x in r <==> Latest(right, x) || (Latest(left, x) && !HasKey(right, x.key))
    ensures EvidenceTells(r, doc, version, a + b)
  {
    hide Latest;
    assert forall c :: c in a + b <==> c in a || c in b;
    SectionsUnite(left, right, r);
    forall x ensures x in r <==> exists c, chunk :: c in a + b && chunk in c.chunks && x == ClaimEvidence(doc, version, c, chunk) {
      if x in left {
        var c, chunk :| c in a && chunk in c.chunks && x == ClaimEvidence(doc, version, c, chunk);
        assert c in a + b;
      } else if x in right {
        var c, chunk :| c in b && chunk in c.chunks && x == ClaimEvidence(doc, version, c, chunk);
        assert c in a + b;
      }
    }
  }

  // ----- one build -----

  datatype Answer = Parsed(payload: Payload) | Unusable

  /** One model call: the ids of its chunks, and its answer. */
  datatype Batch = Batch(known: seq<Id>, answer: Answer)

  function AllNotes(batches: seq<Batch>, appears: (Name, Id) -> bool): seq<Note> {
    if batches == [] then []
    else
      var before, b := AllNotes(batches[..|batches| - 1], appears), batches[|batches| - 1];
      if b.answer.Unusable? then before else before + Notes(b.known, b.answer.payload, appears)
  }

  function AllClaims(batches: seq<Batch>, appears: (Name, Id) -> bool): seq<Claim> {
    if batches == [] then []
    else
      var before, b := AllClaims(batches[..|batches| - 1], appears), batches[|batches| - 1];
      if b.answer.Unusable? then before else before + Claims(b.known, b.answer.payload.relations, appears)
  }

  lemma NothingToTell(doc: Id, version: Id)
    ensures BatchesTell(Records([], [], [], []), doc, version, [], [])
  {
  }

  lemma EntitiesKeyed(w: World, entities: seq<Item>)
    requires forall x :: x in entities ==> EntityOk(w, x)
    ensures forall x :: x in entities ==> x.Entity? && x.key == EntityOf(x.name)
  {
  }

  method ExtractByModel(w: World, doc: Id, version: Id, batches: seq<Batch>, appears: (Name, Id) -> bool)
    returns (r: Option<Records>)
    requires w.isDoc(doc) && w.owner(version) == doc && forall b :: b in batches ==> OwnChunks(w, b.known, doc)
    ensures r.Some? <==> forall b :: b in batches ==> b.answer.Parsed?
    ensures r.Some? ==> BuildOf(w, r.value, doc)
    ensures r.Some? ==> BatchesTell(r.value, doc, version, AllNotes(batches, appears), AllClaims(batches, appears))
  {
    hide IdsTell, EntitiesTell, MentionsTell, FactsTell, EvidenceTells, Gathers, PutAll, Latest, KeysUnique, HasKey, OwnChunks, EntityOk, Closed;
    var records := Records([], [], [], []);
    NothingToTell(doc, version);
    NothingBuilt(w, doc);
    for k := 0 to |batches|
      invariant BuildOf(w, records, doc)
      invariant BatchesTell(records, doc, version, AllNotes(batches[..k], appears), AllClaims(batches[..k], appears))
      invariant forall j :: 0 <= j < k ==> batches[j].answer.Parsed?
    {
      var b := batches[k];
      assert batches[..k + 1][..k] == batches[..k];
      if b.answer.Unusable? {
        return None;
      }
      var more := RecordsFromPayload(w, doc, version, b.known, b.answer.payload, appears);
      ghost var before := records;
      ghost var a, c := AllNotes(batches[..k], appears), AllClaims(batches[..k], appears);
      ghost var a', c' := Notes(b.known, b.answer.payload, appears), Claims(b.known, b.answer.payload.relations, appears);
      records := MergeLlmRecords(w, records, more, doc);
      EntitiesKeyed(w, more.entities);
      MergedIdsTell(before.entities, more.entities, a, a', records.entities);
      MentionsUnite(before.mentions, more.mentions, records.mentions, doc, a, a');
      FactsUnite(before.facts, more.facts, records.facts, doc, version, c, c');
      EvidenceUnites(before.evidence, more.evidence, records.evidence, doc, version, c, c');
    }
    assert batches[..|batches|] == batches;
    return Some(records);
  }

  lemma NothingBuilt(w: World, doc: Id)
    requires w.isDoc(doc)
    ensures BuildOf(w, Records([], [], [], []), doc)
  {
  }

  /** What the rule-based extractor makes of a document's chunks. */
  ghost predicate RulesTell(r: Records, doc: Id, version: Id, chunks: seq<ChunkText>) {
    && r.mentions == MentionsOf(doc, chunks)
    && r.facts == FactsOf(doc, version, chunks) && r.evidence == EvidenceOf(doc, version, chunks)
    && (forall n :: Named(r.entities, n) <==> NameIn(chunks, n))
    && (forall n, c :: SeenIn(r.entities, n, c) <==> TextNames(chunks, n, c))
  }

  /**
   A build uses the model where one is configured and every answer is usable, and then holds
   what all answers say; otherwise it holds what the rules give.
   */
  method ExtractRecords(w: World, doc: Id, version: Id, chunks: seq<ChunkText>, model: Option<seq<Batch>>,
                        appears: (Name, Id) -> bool)
    returns (r: Records, byModel: bool)
    requires w.isDoc(doc) && w.owner(version) == doc && OwnTexts(w, chunks, doc)
    requires model.Some? ==> forall b :: b in model.value ==> OwnChunks(w, b.known, doc)
    ensures BuildOf(w, r, doc)
    ensures byModel <==> model.Some? && forall b :: b in model.value ==> b.answer.Parsed?
    ensures byModel ==> BatchesTell(r, doc, version, AllNotes(model.value, appears), AllClaims(model.value, appears))
    ensures !byModel ==> RulesTell(r, doc, version, chunks)
  {
    hide BuildOf, BatchesTell, Named, SeenIn, NameIn, TextNames;
    if model.Some? {
      var records := ExtractByModel(w, doc, version, model.value, appears);
      if records.Some? {
        return records.value, true;
      }
    }
    r := ExtractByRules(w, doc, version, chunks);
    return r, false;
  }
}
