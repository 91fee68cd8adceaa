/**
 The graph index of one knowledge base: how a document's build is merged into it, and the
 referential integrity every sequence of builds keeps. Dictionaries are association lists in
 insertion order.
 */
module GraphIndex {
  import opened GraphModel

  ghost predicate Ranked(w: World) {
    forall a, b :: w.rank(a) == w.rank(b) ==> a == b
  }

  // ----- dictionaries -----

  function Put(d: seq<Item>, x: Item): seq<Item> {
    if d == [] then [x]
    else if d[0].key == x.key then [x] + d[1..]
    else [d[0]] + Put(d[1..], x)
  }

  function PutAll(d: seq<Item>, xs: seq<Item>): seq<Item> {
    if xs == [] then d else Put(PutAll(d, xs[..|xs| - 1]), xs[|xs| - 1])
  }

  ghost predicate KeysUnique(xs: seq<Item>) {
    forall i, j :: 0 <= i < j < |xs| ==> xs[i].key != xs[j].key
  }

  ghost predicate HasKey(xs: seq<Item>, k: Key) {
    exists x :: x in xs && x.key == k
  }

  /** `y` is the last item of its key. */
  predicate Latest(xs: seq<Item>, y: Item) {
    xs != [] && (y == xs[|xs| - 1] || (y.key != xs[|xs| - 1].key && Latest(xs[..|xs| - 1], y)))
  }

  lemma {:induction false} PutHolds(d: seq<Item>, x: Item, y: Item)
    requires KeysUnique(d)
    ensures y in Put(d, x) <==> y == x || (y in d && y.key != x.key)
  {
    if d != [] {
      assert d == [d[0]] + d[1..];
      if d[0].key != x.key {
        PutHolds(d[1..], x, y);
      } else {
        assert y in d[1..] ==> y.key != d[0].key;
      }
    }
  }

  lemma ConsUnique(x: Item, xs: seq<Item>)
    requires KeysUnique(xs) && forall y :: y in xs ==> y.key != x.key
    ensures KeysUnique([x] + xs)
  {
    forall i, j | 0 <= i < j < |xs| + 1 ensures ([x] + xs)[i].key != ([x] + xs)[j].key {
      assert ([x] + xs)[j] == xs[j - 1] && xs[j - 1] in xs;
    }
  }

  lemma {:induction false} PutUnique(d: seq<Item>, x: Item)
    requires KeysUnique(d)
    ensures KeysUnique(Put(d, x))
  {
    if d != [] {
      assert forall y :: y in d[1..] ==> y.key != d[0].key;
      assert KeysUnique(d[1..]);
      hide KeysUnique;
      if d[0].key == x.key {
        ConsUnique(x, d[1..]);
      } else {
        PutUnique(d[1..], x);
        forall y | y in Put(d[1..], x) ensures y.key != d[0].key {
          PutHolds(d[1..], x, y);
        }
        ConsUnique(d[0], Put(d[1..], x));
      }
    }
  }

  lemma PutExact(d: seq<Item>, x: Item)
    requires KeysUnique(d)
    ensures KeysUnique(Put(d, x))
    ensures forall y :: y in Put(d, x) <==> y == x || (y in d && y.key != x.key)
  {
    hide KeysUnique, Put;
    PutUnique(d, x);
    forall y ensures y in Put(d, x) <==> y == x || (y in d && y.key != x.key) {
      PutHolds(d, x, y);
    }
  }

  lemma {:induction false} LatestHasKey(xs: seq<Item>, y: Item)
    ensures Latest(xs, y) ==> y in xs
    ensures y in xs && KeysUnique(xs) ==> Latest(xs, y)
  {
    if xs != [] {
      LatestHasKey(xs[..|xs| - 1], y);
      assert xs == xs[..|xs| - 1] + [xs[|xs| - 1]];
    }
  }

  lemma {:induction false} LatestExists(xs: seq<Item>, k: Key) returns (y: Item)
    requires HasKey(xs, k)
    ensures Latest(xs, y) && y.key == k
  {
    var n := |xs| - 1;
    if xs[n].key == k {
      y := xs[n];
    } else {
      assert xs == xs[..n] + [xs[n]];
      y := LatestExists(xs[..n], k);
    }
  }

  lemma {:induction false} PutAllExact(d: seq<Item>, xs: seq<Item>)
    requires KeysUnique(d)
    ensures KeysUnique(PutAll(d, xs))
    ensures forall y :: y in PutAll(d, xs) <==> Latest(xs, y) || (y in d && !HasKey(xs, y.key))
  {
    if xs != [] {
      var n := |xs| - 1;
      PutAllExact(d, xs[..n]);
      PutExact(PutAll(d, xs[..n]), xs[n]);
      forall k ensures HasKey(xs, k) <==> HasKey(xs[..n], k) || xs[n].key == k {
        assert xs == xs[..n] + [xs[n]];
        assert xs[n] in xs;
      }
    }
  }

  // ----- sorting by id -----

  function InsertByRank(w: World, xs: seq<Item>, x: Item): (r: seq<Item>)
    ensures forall y :: y in r <==> y in xs || y == x
  {
    if xs == [] then [x]
    else
      var n := |xs| - 1;
      if w.rank(xs[n].key) <= w.rank(x.key) then xs + [x]
      else
        assert xs == xs[..n] + [xs[n]];
        InsertByRank(w, xs[..n], x) + [xs[n]]
  }

  function SortByRank(w: World, xs: seq<Item>): (r: seq<Item>)
    ensures forall y :: y in r <==> y in xs
  {
    if xs == [] then []
    else
      assert xs == xs[..|xs| - 1] + [xs[|xs| - 1]];
      InsertByRank(w, SortByRank(w, xs[..|xs| - 1]), xs[|xs| - 1])
  }

  ghost predicate Ascending(w: World, xs: seq<Item>) {
    forall i, j :: 0 <= i < j < |xs| ==> w.rank(xs[i].key) < w.rank(xs[j].key)
  }

  lemma SnocAscending(w: World, xs: seq<Item>, x: Item)
    requires Ascending(w, xs) && forall y :: y in xs ==> w.rank(y.key) < w.rank(x.key)
    ensures Ascending(w, xs + [x])
  {
    forall i, j | 0 <= i < j < |xs| + 1 ensures w.rank((xs + [x])[i].key) < w.rank((xs + [x])[j].key) {
      assert (xs + [x])[i] == xs[i] && xs[i] in xs;
    }
  }

  lemma PrefixAscending(w: World, xs: seq<Item>)
    requires Ascending(w, xs) && xs != []
    ensures Ascending(w, xs[..|xs| - 1])
    ensures forall y :: y in xs[..|xs| - 1] ==> w.rank(y.key) < w.rank(xs[|xs| - 1].key)
  {
  }

  lemma {:induction false} InsertAscending(w: World, xs: seq<Item>, x: Item)
    requires Ascending(w, xs) && forall y :: y in xs ==> w.rank(y.key) != w.rank(x.key)
    ensures Ascending(w, InsertByRank(w, xs, x))
  {
    if xs != [] {
      var n := |xs| - 1;
      PrefixAscending(w, xs);
      hide Ascending;
      if w.rank(xs[n].key) <= w.rank(x.key) {
        assert forall y :: y in xs ==> y in xs[..n] || y == xs[n];
        SnocAscending(w, xs, x);
      } else {
        InsertAscending(w, xs[..n], x);
        SnocAscending(w, InsertByRank(w, xs[..n], x), xs[n]);
      }
    }
  }

  lemma {:induction false} SortAscending(w: World, xs: seq<Item>)
    requires Ranked(w) && KeysUnique(xs)
    ensures Ascending(w, SortByRank(w, xs))
  {
    if xs != [] {
      var n := |xs| - 1;
      SortAscending(w, xs[..n]);
      forall y | y in xs[..n] ensures w.rank(y.key) != w.rank(xs[n].key) {
        assert y.key != xs[n].key;
      }
      InsertAscending(w, SortByRank(w, xs[..n]), xs[n]);
    }
  }

  lemma AscendingUnique(w: World, xs: seq<Item>)
    requires Ascending(w, xs)
    ensures KeysUnique(xs)
  {
  }

  lemma LastIsLargest(w: World, xs: seq<Item>, x: Item)
    requires Ascending(w, xs) && x in xs
    ensures var n := |xs| - 1;
      (x in xs[..n] <==> x != xs[n]) && (x != xs[n] ==> w.rank(x.key) < w.rank(xs[n].key))
  {
    var i :| 0 <= i < |xs| && xs[i] == x;
    assert i < |xs| - 1 ==> xs[..|xs| - 1][i] == x;
  }

  /** A sorted section is determined by what it holds. */
  lemma {:induction false} SameMembersSameSection(w: World, a: seq<Item>, b: seq<Item>)
    requires Ascending(w, a) && Ascending(w, b) && forall x :: x in a <==> x in b
    ensures a == b
  {
    hide Ascending;
    assert b != [] ==> b[0] in b;
    if a != [] {
      var m, n := |a| - 1, |b| - 1;
      assert a[m] in a && b[n] in b;
      LastIsLargest(w, a, b[n]);
      LastIsLargest(w, b, a[m]);
      assert a == a[..m] + [a[m]] && b == b[..n] + [b[n]];
      PrefixAscending(w, a);
      PrefixAscending(w, b);
      forall x ensures x in a[..m] <==> x in b[..n] {
        if x in a {
          LastIsLargest(w, a, x);
          LastIsLargest(w, b, x);
        }
      }
      SameMembersSameSection(w, a[..m], b[..n]);
    }
  }

  // ----- merging a build -----

  /** Whether a build of `doc` leaves an item in the index. */
  predicate Retained(x: Item, doc: Id) {
    match x
    case Entity(_, _, _, chunks, _) => doc !in chunks
    case Mention(_, d, _, _, _) => d != doc
    case Fact(_, d, _, _, _, chunks, _) => d != doc && doc !in chunks
    case Evidence(_, d, _, _) => d != doc
  }

  function Keep(section: seq<Item>, doc: Id): (r: seq<Item>)
    ensures forall y :: y in r <==> y in section && Retained(y, doc)
  {
    if section == [] then []
    else if Retained(section[|section| - 1], doc) then Keep(section[..|section| - 1], doc) + [section[|section| - 1]]
    else Keep(section[..|section| - 1], doc)
  }

  function MergeSection(w: World, section: seq<Item>, built: seq<Item>, doc: Id): seq<Item> {
    SortByRank(w, PutAll(PutAll([], Keep(section, doc)), built))
  }

  function MergeIndex(w: World, ix: Index, r: Records, doc: Id): Index {
    var s := ix.sections;
    Index(Records(MergeSection(w, s.entities, r.entities, doc), MergeSection(w, s.mentions, r.mentions, doc),
                  MergeSection(w, s.facts, r.facts, doc), MergeSection(w, s.evidence, r.evidence, doc)),
          ix.revision + 1)
  }

  lemma {:induction false} KeepUnique(section: seq<Item>, doc: Id)
    requires KeysUnique(section)
    ensures KeysUnique(Keep(section, doc))
  {
    if section != [] {
      var n := |section| - 1;
      KeepUnique(section[..n], doc);
      assert forall y :: y in section[..n] ==> y.key != section[n].key;
    }
  }

  /** A merged section: the newest built item of each id, and the retained items of all other ids, sorted by id. */
  lemma MergeSectionExact(w: World, section: seq<Item>, built: seq<Item>, doc: Id)
    requires Ranked(w) && KeysUnique(section)
    ensures Ascending(w, MergeSection(w, section, built, doc))
    ensures forall y :: y in MergeSection(w, section, built, doc) <==>
      Latest(built, y) || (y in section && Retained(y, doc) && !HasKey(built, y.key))
  {
    var kept := Keep(section, doc);
    KeepUnique(section, doc);
    PutAllExact([], kept);
    forall y ensures Latest(kept, y) <==> y in kept {
      LatestHasKey(kept, y);
    }
    PutAllExact(PutAll([], kept), built);
    SortAscending(w, PutAll(PutAll([], kept), built));
  }

  // ----- referential integrity -----

  /** The document whose build a mention, fact or evidence id belongs to. */
  function OwnerOf(w: World, k: Key): Id {
    match k
    case EntityKey(_) => 0
    case MentionKey(chunk, _, _) => w.owner(chunk)
    case FactKey(version, _, _, _, _) => w.owner(version)
    case EvidenceKey(fact, _) => OwnerOf(w, fact)
  }

  ghost predicate EntityOk(w: World, x: Item) {
    x.Entity? && x.key == EntityKey(x.name.folded) && forall c :: c in x.chunks ==> !w.isDoc(c)
  }

  ghost predicate MentionOk(w: World, r: Records, x: Item) {
    && x.Mention? && x.key.MentionKey? && x.key.chunk == x.chunk && x.doc == OwnerOf(w, x.key)
    && HasKey(r.entities, x.entity)
  }

  ghost predicate FactOk(w: World, r: Records, x: Item) {
    && x.Fact? && x.key.FactKey? && x.doc == OwnerOf(w, x.key)
    && x.key == FactKey(x.key.version, x.chunks, x.subject, x.predicate_, x.object_)
    && (forall c :: c in x.chunks ==> !w.isDoc(c))
    && HasKey(r.entities, x.subject) && HasKey(r.entities, x.object_)
    && (forall k :: k in x.evidence ==> k.EvidenceKey? && k.fact == x.key && HasKey(r.evidence, k))
  }

  ghost predicate EvidenceOk(w: World, x: Item) {
    && x.Evidence? && x.key.EvidenceKey? && x.key.fact == x.fact && x.key.chunk == x.chunk
    && x.key.fact.FactKey? && x.doc == OwnerOf(w, x.key)
  }

  /** Every reference between the sections resolves. */
  ghost predicate Closed(w: World, r: Records) {
    && (forall x :: x in r.entities ==> EntityOk(w, x))
    && (forall x :: x in r.mentions ==> MentionOk(w, r, x))
    && (forall x :: x in r.facts ==> FactOk(w, r, x))
    && (forall x :: x in r.evidence ==> EvidenceOk(w, x))
  }

  ghost predicate Sorted(w: World, r: Records) {
    Ascending(w, r.entities) && Ascending(w, r.mentions) && Ascending(w, r.facts) && Ascending(w, r.evidence)
  }

  ghost predicate Integrity(w: World, ix: Index) {
    Sorted(w, ix.sections) && Closed(w, ix.sections)
  }

  /** Records that can come out of one build of `doc`. */
  ghost predicate BuildOf(w: World, r: Records, doc: Id) {
    && Closed(w, r) && w.isDoc(doc)
    && (forall x :: x in r.mentions || x in r.facts || x in r.evidence ==> OwnerOf(w, x.key) == doc)
  }

  lemma MergeSections(w: World, ix: Index, r: Records, doc: Id)
    requires Ranked(w) && Integrity(w, ix)
    ensures var s, s' := ix.sections, MergeIndex(w, ix, r, doc).sections;
      && Sorted(w, s')
      && (forall y :: y in s'.entities <==> Latest(r.entities, y) || (y in s.entities && Retained(y, doc) && !HasKey(r.entities, y.key)))
      && (forall y :: y in s'.mentions <==> Latest(r.mentions, y) || (y in s.mentions && Retained(y, doc) && !HasKey(r.mentions, y.key)))
      && (forall y :: y in s'.facts <==> Latest(r.facts, y) || (y in s.facts && Retained(y, doc) && !HasKey(r.facts, y.key)))
      && (forall y :: y in s'.evidence <==> Latest(r.evidence, y) || (y in s.evidence && Retained(y, doc) && !HasKey(r.evidence, y.key)))
  {
    hide MergeSection, Closed, Retained, Latest, HasKey, KeysUnique;
    var s := ix.sections;
    AscendingUnique(w, s.entities);
    AscendingUnique(w, s.mentions);
    AscendingUnique(w, s.facts);
    AscendingUnique(w, s.evidence);
    hide Ascending;
    MergeSectionExact(w, s.entities, r.entities, doc);
    MergeSectionExact(w, s.mentions, r.mentions, doc);
    MergeSectionExact(w, s.facts, r.facts, doc);
    MergeSectionExact(w, s.evidence, r.evidence, doc);
  }

  /** A key present before and not dropped, or present in the build, is present after. */
  lemma KeyStays(section: seq<Item>, built: seq<Item>, merged: seq<Item>, doc: Id, k: Key)
    requires forall y :: y in merged <==> Latest(built, y) || (y in section && Retained(y, doc) && !HasKey(built, y.key))
    requires HasKey(built, k) || exists x :: x in section && x.key == k && Retained(x, doc)
    ensures HasKey(merged, k)
  {
    if HasKey(built, k) {
      var y := LatestExists(built, k);
      assert y in merged;
    } else {
      var x :| x in section && x.key == k && Retained(x, doc);
      assert x in merged;
    }
  }

  lemma EntityKeysStay(w: World, ix: Index, r: Records, doc: Id, k: Key)
    requires Ranked(w) && Integrity(w, ix) && BuildOf(w, r, doc)
    requires HasKey(ix.sections.entities, k) || HasKey(r.entities, k)
    ensures HasKey(MergeIndex(w, ix, r, doc).sections.entities, k)
  {
    hide MergeIndex, Latest;
    MergeSections(w, ix, r, doc);
    if !HasKey(r.entities, k) {
      var x :| x in ix.sections.entities && x.key == k;
      assert EntityOk(w, x) && Retained(x, doc);
    }
    KeyStays(ix.sections.entities, r.entities, MergeIndex(w, ix, r, doc).sections.entities, doc, k);
  }

  lemma MentionStaysOk(w: World, ix: Index, r: Records, doc: Id, x: Item)
    requires Ranked(w) && Integrity(w, ix) && BuildOf(w, r, doc)
    requires MentionOk(w, ix.sections, x) || MentionOk(w, r, x)
    ensures MentionOk(w, MergeIndex(w, ix, r, doc).sections, x)
  {
    hide MergeIndex, Integrity, BuildOf, HasKey;
    EntityKeysStay(w, ix, r, doc, x.entity);
  }

  lemma EvidenceKeyStays(w: World, ix: Index, r: Records, doc: Id, k: Key)
    requires Ranked(w) && Integrity(w, ix) && BuildOf(w, r, doc)
    requires HasKey(r.evidence, k) || (HasKey(ix.sections.evidence, k) && OwnerOf(w, k) != doc)
    ensures HasKey(MergeIndex(w, ix, r, doc).sections.evidence, k)
  {
    hide MergeIndex, Latest;
    MergeSections(w, ix, r, doc);
    if !HasKey(r.evidence, k) {
      var x :| x in ix.sections.evidence && x.key == k;
      assert EvidenceOk(w, x) && Retained(x, doc);
    }
    KeyStays(ix.sections.evidence, r.evidence, MergeIndex(w, ix, r, doc).sections.evidence, doc, k);
  }

  lemma FactStaysOk(w: World, ix: Index, r: Records, doc: Id, x: Item)
    requires Ranked(w) && Integrity(w, ix) && BuildOf(w, r, doc)
    requires (FactOk(w, ix.sections, x) && x.doc != doc) || FactOk(w, r, x)
    ensures FactOk(w, MergeIndex(w, ix, r, doc).sections, x)
  {
    hide MergeIndex, Integrity, BuildOf, HasKey;
    EntityKeysStay(w, ix, r, doc, x.subject);
    EntityKeysStay(w, ix, r, doc, x.object_);
    forall k | k in x.evidence ensures HasKey(MergeIndex(w, ix, r, doc).sections.evidence, k) {
      EvidenceKeyStays(w, ix, r, doc, k);
    }
  }

  /** Building a document keeps ids unique and every reference resolving. */
  lemma BuildKeepsIntegrity(w: World, ix: Index, r: Records, doc: Id)
    requires Ranked(w) && Integrity(w, ix) && BuildOf(w, r, doc)
    ensures Integrity(w, MergeIndex(w, ix, r, doc))
  {
    hide MergeIndex, Latest, HasKey, EntityOk, MentionOk, FactOk, EvidenceOk, Sorted;
    MergeSections(w, ix, r, doc);
    var s, s' := ix.sections, MergeIndex(w, ix, r, doc).sections;
    forall x | x in s'.entities ensures EntityOk(w, x) {
      LatestHasKey(r.entities, x);
    }
    forall x | x in s'.mentions ensures MentionOk(w, s', x) {
      LatestHasKey(r.mentions, x);
      MentionStaysOk(w, ix, r, doc, x);
    }
    forall x | x in s'.facts ensures FactOk(w, s', x) {
      LatestHasKey(r.facts, x);
      if x in r.facts {
        FactStaysOk(w, ix, r, doc, x);
      } else {
        OtherFact(w, s, x, doc);
        FactStaysOk(w, ix, r, doc, x);
      }
    }
    forall x | x in s'.evidence ensures EvidenceOk(w, x) {
      LatestHasKey(r.evidence, x);
    }
  }

  lemma OtherFact(w: World, s: Records, x: Item, doc: Id)
    requires FactOk(w, s, x) && Retained(x, doc)
    ensures x.doc != doc
  {
  }

  function IndexAfter(w: World, builds: seq<Build>): Index {
    if builds == [] then EMPTY_INDEX
    else
      var b := builds[|builds| - 1];
      MergeIndex(w, IndexAfter(w, builds[..|builds| - 1]), b.records, b.doc)
  }

  /** After any sequence of builds the index is sorted by unique ids and all its references resolve. */
  lemma {:induction false} EverySequenceKeepsIntegrity(w: World, builds: seq<Build>)
    requires Ranked(w) && forall b :: b in builds ==> BuildOf(w, b.records, b.doc)
    ensures Integrity(w, IndexAfter(w, builds))
  {
    hide MergeIndex, BuildOf;
    if builds != [] {
      hide Integrity;
      var n := |builds| - 1;
      EverySequenceKeepsIntegrity(w, builds[..n]);
      BuildKeepsIntegrity(w, IndexAfter(w, builds[..n]), builds[n].records, builds[n].doc);
    }
  }

  // ----- what a build replaces -----

  lemma OwnKeysOnly(w: World, r: Records, doc: Id, x: Item)
    requires BuildOf(w, r, doc) && OwnerOf(w, x.key) != doc
    ensures !HasKey(r.mentions, x.key) && !HasKey(r.facts, x.key) && !HasKey(r.evidence, x.key)
  {
  }

  /** Of document `doc` the index then holds exactly what the build made, the newest item of each id. */
  lemma BuildReplacesItsOwn(w: World, ix: Index, r: Records, doc: Id, x: Item)
    requires Ranked(w) && Integrity(w, ix) && BuildOf(w, r, doc) && !x.Entity? && x.doc == doc
    ensures var s' := MergeIndex(w, ix, r, doc).sections;
      && (x in s'.mentions <==> Latest(r.mentions, x))
      && (x in s'.facts <==> Latest(r.facts, x))
      && (x in s'.evidence <==> Latest(r.evidence, x))
  {
    hide MergeIndex, Latest, HasKey, Closed;
    MergeSections(w, ix, r, doc);
  }

  /** Another document's mentions, facts and evidence stay exactly as they are. */
  lemma BuildLeavesOthers(w: World, ix: Index, r: Records, doc: Id, x: Item)
    requires Ranked(w) && Integrity(w, ix) && BuildOf(w, r, doc)
    requires !x.Entity? && x.doc == OwnerOf(w, x.key) && x.doc != doc
    ensures var s, s' := ix.sections, MergeIndex(w, ix, r, doc).sections;
      && (x.Mention? ==> (x in s'.mentions <==> x in s.mentions))
      && (x.Fact? ==> (x in s'.facts <==> x in s.facts))
      && (x.Evidence? ==> (x in s'.evidence <==> x in s.evidence))
  {
    hide MergeIndex, Latest, HasKey;
    MergeSections(w, ix, r, doc);
    OwnKeysOnly(w, r, doc, x);
    if x in ix.sections.facts {
      assert FactOk(w, ix.sections, x) && Retained(x, doc);
    }
    LatestHasKey(r.mentions, x);
    LatestHasKey(r.facts, x);
    LatestHasKey(r.evidence, x);
  }

  /** No entity is ever lost: each one keeps its record or takes the build's. */
  lemma EntitiesAccumulate(w: World, ix: Index, r: Records, doc: Id, x: Item)
    requires Ranked(w) && Integrity(w, ix) && BuildOf(w, r, doc)
    ensures x in MergeIndex(w, ix, r, doc).sections.entities <==>
      Latest(r.entities, x) || (x in ix.sections.entities && !HasKey(r.entities, x.key))
  {
    hide MergeIndex, Latest, HasKey;
    MergeSections(w, ix, r, doc);
    if x in ix.sections.entities {
      assert EntityOk(w, x) && Retained(x, doc);
    }
  }

  lemma SectionTwice(w: World, section: seq<Item>, built: seq<Item>, doc: Id)
    requires Ranked(w) && KeysUnique(section)
    ensures var once := MergeSection(w, section, built, doc);
      MergeSection(w, once, built, doc) == once
  {
    hide MergeSection;
    var once := MergeSection(w, section, built, doc);
    MergeSectionExact(w, section, built, doc);
    AscendingUnique(w, once);
    MergeSectionExact(w, once, built, doc);
    forall y ensures Latest(built, y) ==> HasKey(built, y.key) {
      LatestHasKey(built, y);
    }
    SameMembersSameSection(w, MergeSection(w, once, built, doc), once);
  }

  /** Building a document again with the same records changes nothing but the revision. */
  lemma BuildIsIdempotent(w: World, ix: Index, r: Records, doc: Id)
    requires Ranked(w) && Sorted(w, ix.sections)
    ensures var once := MergeIndex(w, ix, r, doc);
      MergeIndex(w, once, r, doc) == once.(revision := once.revision + 1)
  {
    hide MergeSection, Ascending;
    var s := ix.sections;
    AscendingUnique(w, s.entities);
    AscendingUnique(w, s.mentions);
    AscendingUnique(w, s.facts);
    AscendingUnique(w, s.evidence);
    SectionTwice(w, s.entities, r.entities, doc);
    SectionTwice(w, s.mentions, r.mentions, doc);
    SectionTwice(w, s.facts, r.facts, doc);
    SectionTwice(w, s.evidence, r.evidence, doc);
  }

  /**
   Where a chunk id equals a document's id, building that document drops the entity found in
   the chunk, and another document's mention of it is left dangling.
   */
  lemma SharedIdsBreakIntegrity(w: World)
    requires Ranked(w) && w.owner(5) == 1
    ensures var e := Entity(EntityKey(0), Name(0, 0), [], [5], 0.75);
      var m := Mention(MentionKey(5, Name(0, 0), 0), 1, 5, Name(0, 0), EntityKey(0));
      var before := MergeIndex(w, EMPTY_INDEX, Records([e], [m], [], []), 1);
      var after := MergeIndex(w, before, Records([], [], [], []), 5);
      && before.sections == Records([e], [m], [], [])
      && after.sections == Records([], [m], [], [])
      && !MentionOk(w, after.sections, m)
  {
    var e := Entity(EntityKey(0), Name(0, 0), [], [5], 0.75);
    var m := Mention(MentionKey(5, Name(0, 0), 0), 1, 5, Name(0, 0), EntityKey(0));
    assert [e][..0] == [] && [m][..0] == [];
  }

  // ----- the builder -----

  class GraphBuilder {
    const w: World
    var index: Index

    constructor (w: World)
      ensures index == EMPTY_INDEX && this.w == w
    {
      this.w, index := w, EMPTY_INDEX;
    }

    method MergeOne(section: seq<Item>, built: seq<Item>, doc: Id) returns (r: seq<Item>)
      ensures r == MergeSection(w, section, built, doc)
    {
      var retained := Keep(section, doc);
      var merged: seq<Item> := [];
      for k := 0 to |retained|
        invariant merged == PutAll([], retained[..k])
      {
        assert retained[..k + 1][..k] == retained[..k];
        merged := Put(merged, retained[k]);
      }
      assert retained[..|retained|] == retained;
      for k := 0 to |built|
        invariant merged == PutAll(PutAll([], retained), built[..k])
      {
        assert built[..k + 1][..k] == built[..k];
        merged := Put(merged, built[k]);
      }
      assert built[..|built|] == built;
      r := SortByRank(w, merged);
    }

    method MergeGraphIndex(doc: Id, r: Records)
      modifies `index
      ensures index == MergeIndex(w, old(index), r, doc)
    {
      var s := index.sections;
      var entities := MergeOne(s.entities, r.entities, doc);
      var mentions := MergeOne(s.mentions, r.mentions, doc);
      var facts := MergeOne(s.facts, r.facts, doc);
      var evidence := MergeOne(s.evidence, r.evidence, doc);
      index := Index(Records(entities, mentions, facts, evidence), index.revision + 1);
    }
  }
}
