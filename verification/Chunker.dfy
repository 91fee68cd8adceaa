/** The overlapping chunker: how a document's blocks are grouped into chunks, and how large those get. */
module Chunker {
  import opened Wrappers

  /** An element of a document's block list; `text` is the block's text before stripping. */
  datatype Item = NotABlock | Block(text: string)

  datatype Chunk = Chunk(index: nat, blocks: seq<Item>, text: string)

  datatype ChunkError = ChunkSizeTooSmall | BadOverlap

  // ----- stripping and joining -----

  predicate IsSpace(c: char) {
    var n := c as int;
    || 0x09 <= n <= 0x0d || 0x1c <= n <= 0x20 || n == 0x85 || n == 0xa0 || n == 0x1680
    || 0x2000 <= n <= 0x200a || n == 0x2028 || n == 0x2029 || n == 0x202f || n == 0x205f || n == 0x3000
  }

  function StripLeft(s: string): (r: string)
    ensures |r| <= |s|
    ensures r != [] ==> !IsSpace(r[0]) && r[|r| - 1] == s[|s| - 1]
    ensures s != [] && !IsSpace(s[0]) ==> r == s
  {
    if s == [] then [] else if IsSpace(s[0]) then StripLeft(s[1..]) else s
  }

  function StripRight(s: string): (r: string)
    ensures |r| <= |s|
    ensures r != [] ==> !IsSpace(r[|r| - 1]) && r[0] == s[0]
    ensures s != [] && !IsSpace(s[|s| - 1]) ==> r == s
  {
    if s == [] then [] else if IsSpace(s[|s| - 1]) then StripRight(s[..|s| - 1]) else s
  }

  function Strip(s: string): (r: string)
    ensures |r| <= |s|
    ensures r != [] ==> !IsSpace(r[0]) && !IsSpace(r[|r| - 1])
    ensures s != [] && !IsSpace(s[0]) && !IsSpace(s[|s| - 1]) ==> r == s
  {
    StripRight(StripLeft(s))
  }

  function Raw(b: Item): string {
    if b.Block? then b.text else ""
  }

  function Stripped(b: Item): string {
    Strip(Raw(b))
  }

  predicate Keeps(b: Item) {
    b.Block? && Stripped(b) != ""
  }

  /** The blocks that are chunked at all. */
  function Kept(items: seq<Item>): (r: seq<Item>)
    ensures forall b :: b in r ==> Keeps(b)
  {
    if items == [] then []
    else if Keeps(items[|items| - 1]) then Kept(items[..|items| - 1]) + [items[|items| - 1]]
    else Kept(items[..|items| - 1])
  }

  /** The stripped texts of the blocks, separated by newlines. */
  function Joined(blocks: seq<Item>): string {
    if blocks == [] then ""
    else if |blocks| == 1 then Stripped(blocks[0])
    else Joined(blocks[..|blocks| - 1]) + "\n" + Stripped(blocks[|blocks| - 1])
  }

  /** Blocks side by side are joined by one newline. */
  lemma {:induction false} JoinSpells(a: seq<Item>, b: seq<Item>)
    requires a != [] && b != []
    ensures Joined(a + b) == Joined(a) + "\n" + Joined(b)
    decreases |b|
  {
    hide Stripped;
    assert (a + b)[..|a + b| - 1] == a + b[..|b| - 1];
    if |b| > 1 {
      JoinSpells(a, b[..|b| - 1]);
      assert Joined(a) + "\n" + Joined(b[..|b| - 1]) + "\n" + Stripped(b[|b| - 1]) == Joined(a) + "\n" + Joined(b);
    } else {
      assert a + b[..0] == a;
    }
  }

  lemma OneIsStripped(b: Item)
    ensures Joined([b]) == Strip(if b.Block? then b.text else "")
  {
    hide Strip;
  }

  /** The kept blocks of a document's parts are those of the document, and a block is kept exactly if it has text left. */
  lemma {:induction false} KeptConcat(a: seq<Item>, b: seq<Item>)
    ensures Kept(a + b) == Kept(a) + Kept(b)
    ensures |a| == 1 ==> Kept(a) == if a[0].Block? && Strip(a[0].text) != "" then a else []
    decreases |b|
  {
    hide Strip;
    if b == [] {
      assert a + b == a;
    } else {
      var n := |b| - 1;
      assert (a + b)[..|a| + n] == a + b[..n];
      KeptConcat(a, b[..n]);
    }
    if |a| == 1 {
      assert a[..0] == [];
    }
  }

  predicate IsBlank(c: char) {
    c == ' ' || c == '\t' || c == '\n' || c == '\r'
  }

  predicate IsPrinted(c: char) {
    '!' <= c <= '~'
  }

  /** Stripping takes blanks off both ends, leaves nothing of blank text, and stops at printed characters. */
  lemma StripTrims(s: string)
    ensures var r := Strip(s);
      && (r != "" ==> !IsBlank(r[0]) && !IsBlank(r[|r| - 1]))
      && ((forall c :: c in s ==> IsBlank(c)) ==> r == "")
      && (s != "" && IsPrinted(s[0]) && IsPrinted(s[|s| - 1]) ==> r == s)
      && ((exists c :: c in s && IsPrinted(c)) ==> r != "")
  {
    if forall c :: c in s ==> IsBlank(c) {
      BlankStrips(s);
    }
    if exists c :: c in s && IsPrinted(c) {
      var c :| c in s && IsPrinted(c);
      PrintedStaysLeft(s, c);
      PrintedStaysRight(StripLeft(s), c);
    }
  }

  lemma {:induction false} BlankStrips(s: string)
    requires forall c :: c in s ==> IsBlank(c)
    ensures StripLeft(s) == ""
  {
    if s != "" {
      assert s[0] in s;
      BlankStrips(s[1..]);
    }
  }

  lemma {:induction false} PrintedStaysLeft(s: string, c: char)
    requires c in s && IsPrinted(c)
    ensures c in StripLeft(s)
  {
    if IsSpace(s[0]) {
      assert s == [s[0]] + s[1..];
      PrintedStaysLeft(s[1..], c);
    }
  }

  lemma {:induction false} PrintedStaysRight(s: string, c: char)
    requires c in s && IsPrinted(c)
    ensures c in StripRight(s)
  {
    var n := |s| - 1;
    if IsSpace(s[n]) {
      assert s == s[..n] + [s[n]];
      PrintedStaysRight(s[..n], c);
    }
  }

  function StripSum(blocks: seq<Item>): nat {
    if blocks == [] then 0 else StripSum(blocks[..|blocks| - 1]) + |Stripped(blocks[|blocks| - 1])|
  }

  function RawSum(blocks: seq<Item>): nat {
    if blocks == [] then 0 else RawSum(blocks[..|blocks| - 1]) + |Raw(blocks[|blocks| - 1])|
  }

  lemma {:induction false} JoinedEdges(blocks: seq<Item>)
    requires blocks != [] && AllKept(blocks)
    ensures var t := Joined(blocks);
      && |t| == StripSum(blocks) + |blocks| - 1
      && t != "" && !IsSpace(t[0]) && !IsSpace(t[|t| - 1])
  {
    hide Strip, IsSpace;
    var n := |blocks| - 1;
    if n > 0 {
      JoinedEdges(blocks[..n]);
      assert Keeps(blocks[n]);
    } else {
      assert Keeps(blocks[0]) && blocks[..0] == [];
    }
  }

  lemma {:induction false} SumsConcat(a: seq<Item>, b: seq<Item>)
    ensures StripSum(a + b) == StripSum(a) + StripSum(b)
    ensures RawSum(a + b) == RawSum(a) + RawSum(b)
  {
    if b == [] {
      assert a + b == a;
    } else {
      assert (a + b)[..|a + b| - 1] == a + b[..|b| - 1];
      SumsConcat(a, b[..|b| - 1]);
    }
  }

  lemma {:induction false} StripSumIsLess(blocks: seq<Item>)
    ensures StripSum(blocks) <= RawSum(blocks)
  {
    if blocks != [] {
      StripSumIsLess(blocks[..|blocks| - 1]);
    }
  }

  method BuildText(blocks: seq<Item>) returns (text: string)
    requires blocks != [] && AllKept(blocks)
    ensures text == Joined(blocks)
  {
    text := Stripped(blocks[0]);
    assert blocks[..1] == [blocks[0]];
    for k := 1 to |blocks|
      invariant text == Joined(blocks[..k])
    {
      assert blocks[..k + 1][..k] == blocks[..k];
      text := text + "\n" + Stripped(blocks[k]);
    }
    assert blocks[..|blocks|] == blocks;
    JoinedEdges(blocks);
    text := Strip(text);
  }

  // ----- the overlap tail -----

  /**
   The blocks a chunk hands on to the next: none without overlap; otherwise its longest run of
   last blocks within the budget, or its last block alone.
   */
  ghost predicate IsTail(blocks: seq<Item>, tail: seq<Item>, overlap: int) {
    && |tail| <= |blocks| && tail == blocks[|blocks| - |tail|..]
    && (overlap <= 0 ==> tail == [])
    && (overlap > 0 && blocks != [] ==> tail != [])
    && (|tail| > 1 ==> RawSum(tail) <= overlap)
    && (overlap > 0 && 0 < |tail| < |blocks| ==> RawSum(blocks[|blocks| - |tail| - 1..]) > overlap)
  }

  method OverlapTail(blocks: seq<Item>, overlap: int) returns (selected: seq<Item>)
    ensures IsTail(blocks, selected, overlap)
  {
    hide Raw;
    selected := [];
    if overlap <= 0 {
      return;
    }
    var total := 0;
    var k := |blocks|;
    while k > 0
      invariant 0 <= k <= |blocks| && selected == blocks[k..] && total == RawSum(selected)
      invariant |selected| > 1 ==> total <= overlap
    {
      var text := Raw(blocks[k - 1]);
      assert blocks[k - 1..] == [blocks[k - 1]] + blocks[k..];
      SumsConcat([blocks[k - 1]], blocks[k..]);
      assert RawSum([blocks[k - 1]]) == |text|;
      if selected != [] && total + |text| > overlap {
        break;
      }
      selected := [blocks[k - 1]] + selected;
      total := total + |text|;
      k := k - 1;
    }
  }

  // ----- chunking -----

  function Flatten(parts: seq<seq<Item>>): seq<Item> {
    if parts == [] then [] else Flatten(parts[..|parts| - 1]) + parts[|parts| - 1]
  }

  /** The measure the chunker keeps: carried-over blocks count unstripped, fresh blocks stripped, each with a newline. */
  function Weight(tail: seq<Item>, fresh_: seq<Item>): nat {
    RawSum(tail) + |tail| + StripSum(fresh_) + |fresh_|
  }

  /** Chunk `i` is the overlap tail of the chunk before it, followed by its fresh blocks. */
  ghost predicate IsPart(chunks: seq<Chunk>, tails: seq<seq<Item>>, parts: seq<seq<Item>>, i: nat, overlap: int)
    requires i < |chunks| == |tails| == |parts|
  {
    && chunks[i].index == i && chunks[i].blocks == tails[i] + parts[i] && chunks[i].text == Joined(chunks[i].blocks)
    && parts[i] != []
    && if i == 0 then tails[i] == [] else IsTail(chunks[i - 1].blocks, tails[i], overlap)
  }

  /** A chunk takes blocks while they fit, and stops at the first that does not. */
  ghost predicate IsFull(tails: seq<seq<Item>>, parts: seq<seq<Item>>, i: nat, size: int)
    requires i < |tails| == |parts|
  {
    && (|parts[i]| > 1 ==> Weight(tails[i], parts[i]) <= size)
    && (i + 1 < |parts| ==>
          parts[i + 1] != [] && Weight(tails[i], parts[i]) + |Stripped(parts[i + 1][0])| + 1 > size)
  }

  ghost predicate Chunking(all: seq<Item>, chunks: seq<Chunk>, tails: seq<seq<Item>>, parts: seq<seq<Item>>, size: int, overlap: int) {
    && |chunks| == |tails| == |parts|
    && Flatten(parts) == all
    && (forall i :: 0 <= i < |chunks| ==> IsPart(chunks, tails, parts, i, overlap))
    && (forall i :: 0 <= i < |chunks| ==> IsFull(tails, parts, i, size))
  }

  /** The state of the loop: finished chunks, and the tail and fresh blocks of the one being filled. */
  ghost predicate Filling(all: seq<Item>, chunks: seq<Chunk>, tails: seq<seq<Item>>, parts: seq<seq<Item>>,
                          tail: seq<Item>, fresh_: seq<Item>, size: int, overlap: int) {
    && |chunks| == |tails| == |parts|
    && Flatten(parts) + fresh_ == all
    && (forall i :: 0 <= i < |chunks| ==> IsPart(chunks, tails, parts, i, overlap))
    && (forall i :: 0 <= i < |chunks| ==> IsFull(tails, parts, i, size))
    && (if chunks == [] then tail == []
        else fresh_ != [] && IsTail(chunks[|chunks| - 1].blocks, tail, overlap)
             && Weight(tails[|chunks| - 1], parts[|chunks| - 1]) + |Stripped(fresh_[0])| + 1 > size)
    && (|fresh_| > 1 ==> Weight(tail, fresh_) <= size)
    && AllKept(tail + fresh_)
  }

  ghost predicate AllKept(blocks: seq<Item>) {
    forall b :: b in blocks ==> Keeps(b)
  }

  /** Closing the chunk being filled. */
  lemma CloseChunk(all: seq<Item>, chunks: seq<Chunk>, tails: seq<seq<Item>>, parts: seq<seq<Item>>,
                   tail: seq<Item>, fresh_: seq<Item>, size: int, overlap: int)
    requires Filling(all, chunks, tails, parts, tail, fresh_, size, overlap) && fresh_ != []
    ensures |chunks| == |tails| == |parts| && AllKept(tail + fresh_)
    ensures Chunking(all, chunks + [Chunk(|chunks|, tail + fresh_, Joined(tail + fresh_))],
                     tails + [tail], parts + [fresh_], size, overlap)
  {
    hide Weight, Joined, IsTail;
    var cs, ts, ps := chunks + [Chunk(|chunks|, tail + fresh_, Joined(tail + fresh_))], tails + [tail], parts + [fresh_];
    assert ps[..|parts|] == parts;
    forall i | 0 <= i < |cs| ensures IsPart(cs, ts, ps, i, overlap) {
      assert i < |chunks| ==> IsPart(chunks, tails, parts, i, overlap);
    }
    forall i | 0 <= i < |cs| ensures IsFull(ts, ps, i, size) {
      assert i < |chunks| ==> IsFull(tails, parts, i, size);
    }
  }

  lemma TakeFitting(all: seq<Item>, chunks: seq<Chunk>, tails: seq<seq<Item>>, parts: seq<seq<Item>>,
                    tail: seq<Item>, fresh_: seq<Item>, size: int, overlap: int, b: Item)
    requires Filling(all, chunks, tails, parts, tail, fresh_, size, overlap)
    requires Keeps(b) && (tail + fresh_ == [] || Weight(tail, fresh_) + |Stripped(b)| + 1 <= size)
    ensures Filling(all + [b], chunks, tails, parts, tail, fresh_ + [b], size, overlap)
    ensures Weight(tail, fresh_ + [b]) == Weight(tail, fresh_) + |Stripped(b)| + 1
    ensures tail + (fresh_ + [b]) == (tail + fresh_) + [b]
  {
    hide IsPart, IsFull, IsTail;
    assert Flatten(parts) + (fresh_ + [b]) == all + [b];
    assert (fresh_ + [b])[..|fresh_|] == fresh_;
  }

  lemma StartChunk(all: seq<Item>, chunks: seq<Chunk>, tails: seq<seq<Item>>, parts: seq<seq<Item>>,
                   tail: seq<Item>, size: int, overlap: int, b: Item)
    requires Chunking(all, chunks, tails, parts, size, overlap) && chunks != []
    requires IsTail(chunks[|chunks| - 1].blocks, tail, overlap) && AllKept(tail) && Keeps(b)
    requires Weight(tails[|chunks| - 1], parts[|chunks| - 1]) + |Stripped(b)| + 1 > size
    ensures Filling(all + [b], chunks, tails, parts, tail, [b], size, overlap)
    ensures Weight(tail, [b]) == RawSum(tail) + |tail| + |Stripped(b)| + 1
  {
    hide IsPart, IsFull, IsTail;
    assert StripSum([b]) == StripSum([]) + |Stripped(b)| by {
      assert [b][..0] == [];
    }
  }

  method LengthOf(blocks: seq<Item>) returns (n: nat)
    ensures n == RawSum(blocks) + |blocks|
  {
    n := 0;
    for k := 0 to |blocks|
      invariant n == RawSum(blocks[..k]) + k
    {
      assert blocks[..k + 1][..k] == blocks[..k];
      n := n + |Raw(blocks[k])| + 1;
    }
    assert blocks[..|blocks|] == blocks;
  }

  /** Closes the chunk being filled because `b` does not fit, and starts the next one from its overlap tail. */
  method Flush(ghost all: seq<Item>, chunks: seq<Chunk>, ghost tails: seq<seq<Item>>, ghost parts: seq<seq<Item>>,
               current: seq<Item>, ghost tail: seq<Item>, ghost fresh_: seq<Item>, size: int, overlap: int, ghost b: Item)
    returns (chunks': seq<Chunk>, next: seq<Item>, length: nat)
    requires Filling(all, chunks, tails, parts, tail, fresh_, size, overlap) && fresh_ != [] && current == tail + fresh_
    requires Keeps(b) && Weight(tail, fresh_) + |Stripped(b)| + 1 > size
    ensures Filling(all + [b], chunks', tails + [tail], parts + [fresh_], next, [b], size, overlap)
    ensures length + |Stripped(b)| + 1 == Weight(next, [b])
  {
    hide Filling, Chunking, IsTail, Joined, Weight, Strip, RawSum, StripSum, AllKept;
    CloseChunk(all, chunks, tails, parts, tail, fresh_, size, overlap);
    var joined := BuildText(current);
    chunks' := chunks + [Chunk(|chunks|, current, joined)];
    next := OverlapTail(current, overlap);
    TailsKeep(current, next, overlap);
    length := LengthOf(next);
    StartChunk(all, chunks', tails + [tail], parts + [fresh_], next, size, overlap, b);
  }

  method ChunkDocument(items: seq<Item>, size: int, overlap: int)
    returns (r: Result<seq<Chunk>, ChunkError>, ghost tails: seq<seq<Item>>, ghost parts: seq<seq<Item>>)
    ensures size < 50 ==> r == Err(ChunkSizeTooSmall)
    ensures size >= 50 && (overlap < 0 || overlap >= size) ==> r == Err(BadOverlap)
    ensures size >= 50 && 0 <= overlap < size ==> r.Ok? && Chunking(Kept(items), r.value, tails, parts, size, overlap)
  {
    hide Filling, Chunking, IsTail, Joined, Weight, Strip, Kept, RawSum, StripSum, AllKept;
    tails, parts := [], [];
    if size < 50 {
      return Err(ChunkSizeTooSmall), [], [];
    }
    if overlap < 0 || overlap >= size {
      return Err(BadOverlap), [], [];
    }
    var chunks: seq<Chunk> := [];
    var current: seq<Item> := [];
    var length := 0;
    ghost var tail: seq<Item>, fresh_: seq<Item> := [], [];
    NothingYet(items, size, overlap);
    for k := 0 to |items|
      invariant Filling(Kept(items[..k]), chunks, tails, parts, tail, fresh_, size, overlap)
      invariant current == tail + fresh_ && length == Weight(tail, fresh_)
      invariant fresh_ == [] <==> current == []
    {
      KeptNext(items, k);
      var b := items[k];
      if !b.Block? {
        continue;
      }
      var text := Strip(b.text);
      if text == "" {
        continue;
      }
      if current != [] && length + |text| + 1 > size {
        chunks, current, length := Flush(Kept(items[..k]), chunks, tails, parts, current, tail, fresh_, size, overlap, b);
        tails, parts := tails + [tail], parts + [fresh_];
        tail, fresh_ := current, [b];
      } else {
        TakeFitting(Kept(items[..k]), chunks, tails, parts, tail, fresh_, size, overlap, b);
        fresh_ := fresh_ + [b];
      }
      current := current + [b];
      length := length + |text| + 1;
    }
    assert items[..|items|] == items;
    if current != [] {
      CloseChunk(Kept(items), chunks, tails, parts, tail, fresh_, size, overlap);
      var joined := BuildText(current);
      chunks := chunks + [Chunk(|chunks|, current, joined)];
      tails, parts := tails + [tail], parts + [fresh_];
    } else {
      NothingFilling(Kept(items), chunks, tails, parts, size, overlap);
    }
    return Ok(chunks), tails, parts;
  }

  lemma NothingYet(items: seq<Item>, size: int, overlap: int)
    ensures Filling(Kept(items[..0]), [], [], [], [], [], size, overlap) && Weight([], []) == 0
  {
  }

  lemma NothingFilling(all: seq<Item>, chunks: seq<Chunk>, tails: seq<seq<Item>>, parts: seq<seq<Item>>, size: int, overlap: int)
    requires Filling(all, chunks, tails, parts, [], [], size, overlap)
    ensures Chunking(all, chunks, tails, parts, size, overlap)
  {
    assert Flatten(parts) + [] == Flatten(parts);
  }

  lemma KeptNext(items: seq<Item>, k: nat)
    requires k < |items|
    ensures Kept(items[..k + 1]) == if Keeps(items[k]) then Kept(items[..k]) + [items[k]] else Kept(items[..k])
  {
    assert items[..k + 1][..k] == items[..k];
  }

  lemma TailsKeep(blocks: seq<Item>, tail: seq<Item>, overlap: int)
    requires IsTail(blocks, tail, overlap) && AllKept(blocks)
    ensures AllKept(tail)
  {
  }

  // ----- what a chunking is -----

  /** Where chunk `i` starts and ends among the kept blocks. */
  function EndOf(parts: seq<seq<Item>>, i: nat): nat
    requires i < |parts|
  {
    |Flatten(parts[..i + 1])|
  }

  lemma {:induction false} FlattenPrefix(parts: seq<seq<Item>>, i: nat)
    requires i <= |parts|
    ensures Flatten(parts[..i]) <= Flatten(parts)
  {
    if i < |parts| {
      FlattenPrefix(parts[..|parts| - 1], i);
      assert parts[..|parts| - 1][..i] == parts[..i];
    } else {
      assert parts[..i] == parts;
    }
  }

  lemma FlattenNext(parts: seq<seq<Item>>, i: nat)
    requires i < |parts|
    ensures Flatten(parts[..i + 1]) == Flatten(parts[..i]) + parts[i]
  {
    assert parts[..i + 1][..i] == parts[..i];
  }

  lemma {:induction false} ChunkIsSuffix(all: seq<Item>, chunks: seq<Chunk>, tails: seq<seq<Item>>, parts: seq<seq<Item>>,
                                         size: int, overlap: int, i: nat)
    requires Chunking(all, chunks, tails, parts, size, overlap) && i < |chunks|
    ensures var before := Flatten(parts[..i + 1]);
      && |chunks[i].blocks| <= |before| && chunks[i].blocks == before[|before| - |chunks[i].blocks|..]
  {
    hide IsFull, Joined;
    assert IsPart(chunks, tails, parts, i, overlap);
    FlattenNext(parts, i);
    if i > 0 {
      ChunkIsSuffix(all, chunks, tails, parts, size, overlap, i - 1);
    }
  }

  /** Each chunk is a contiguous window of the kept blocks. */
  lemma ChunkIsWindow(all: seq<Item>, chunks: seq<Chunk>, tails: seq<seq<Item>>, parts: seq<seq<Item>>,
                      size: int, overlap: int, i: nat)
    requires Chunking(all, chunks, tails, parts, size, overlap) && i < |chunks|
    ensures var end := EndOf(parts, i);
      && |chunks[i].blocks| <= end <= |all| && chunks[i].blocks == all[end - |chunks[i].blocks|..end]
  {
    hide IsFull, IsPart;
    ChunkIsSuffix(all, chunks, tails, parts, size, overlap, i);
    FlattenPrefix(parts, i + 1);
    assert Flatten(parts[..i + 1]) == all[..EndOf(parts, i)];
  }

  /**
   The windows cover the kept blocks: the first starts at the first block, ends strictly grow,
   starts never go back, no block lies between two windows, and the last ends at the last block.
   */
  lemma WindowsCover(all: seq<Item>, chunks: seq<Chunk>, tails: seq<seq<Item>>, parts: seq<seq<Item>>,
                     size: int, overlap: int, i: nat)
    requires Chunking(all, chunks, tails, parts, size, overlap) && i < |chunks|
    ensures chunks[i].blocks != [] && (i == 0 ==> EndOf(parts, i) == |chunks[i].blocks|)
    ensures i + 1 == |chunks| ==> EndOf(parts, i) == |all|
    ensures i + 1 < |chunks| ==>
      var start, start' := EndOf(parts, i) - |chunks[i].blocks|, EndOf(parts, i + 1) - |chunks[i + 1].blocks|;
      start <= start' <= EndOf(parts, i) < EndOf(parts, i + 1)
  {
    hide IsFull, Joined;
    assert IsPart(chunks, tails, parts, i, overlap);
    FlattenNext(parts, i);
    assert i + 1 == |parts| ==> parts[..i + 1] == parts;
    if i + 1 < |chunks| {
      assert IsPart(chunks, tails, parts, i + 1, overlap);
      FlattenNext(parts, i + 1);
    }
  }

  /** A chunk with two or more fresh blocks is shorter than the chunk size. */
  lemma ManyFreshBlocksFit(all: seq<Item>, chunks: seq<Chunk>, tails: seq<seq<Item>>, parts: seq<seq<Item>>,
                           size: int, overlap: int, i: nat)
    requires Chunking(all, chunks, tails, parts, size, overlap) && i < |chunks|
    requires AllKept(all) && |parts[i]| > 1
    ensures |chunks[i].text| < size
  {
    hide IsTail, Joined, Strip;
    ChunkIsWindow(all, chunks, tails, parts, size, overlap, i);
    assert IsPart(chunks, tails, parts, i, overlap) && IsFull(tails, parts, i, size);
    JoinedEdges(chunks[i].blocks);
    SumsConcat(tails[i], parts[i]);
    StripSumIsLess(tails[i]);
  }

  /** What a chunk repeats of the one before is within the overlap budget, or a single block. */
  lemma OverlapIsBounded(all: seq<Item>, chunks: seq<Chunk>, tails: seq<seq<Item>>, parts: seq<seq<Item>>,
                         size: int, overlap: int, i: nat)
    requires Chunking(all, chunks, tails, parts, size, overlap) && i < |chunks|
    ensures RawSum(tails[i]) <= overlap || |tails[i]| <= 1
    ensures |chunks[i].blocks| - |parts[i]| == |tails[i]|
    ensures i > 0 && overlap > 0 ==> tails[i] != []
  {
    assert IsPart(chunks, tails, parts, i, overlap);
    if i > 0 {
      assert IsPart(chunks, tails, parts, i - 1, overlap);
    }
  }
}
