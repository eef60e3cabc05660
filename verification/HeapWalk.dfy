/** The heap printer: walks chunks with boundary tags up to the program break, and the
    circular list of free chunks. Memory is only read. */
module HeapWalk {

  /** The 64-bit word at each address. */
  type Memory = nat -> nat

  /** One printed chunk. */
  datatype Shown = Shown(inUse: bool, size: nat, address: nat)

  /** A header without its two lowest bits. */
  function Size(header: nat): (size: nat)
    ensures size <= header
  {
    header - header % 4
  }

  /** A header without its three lowest bits. */
  function TagSize(header: nat): (size: nat)
    ensures size <= header
  {
    header - header % 8
  }

  /** print_chunk for the chunk at this address. */
  function ShowChunk(m: Memory, chunk: nat, top: nat): Shown {
    var next := chunk + Size(m(chunk));
    Shown(next < top && m(chunk + TagSize(m(chunk))) % 2 == 1, Size(m(chunk)), chunk)
  }

  /** The walk comes to a chunk of size zero below the top, and stays there. */
  predicate Stalls(m: Memory, chunk: nat, top: nat)
    decreases top - chunk
  {
    chunk < top && (Size(m(chunk)) == 0 || Stalls(m, chunk + Size(m(chunk)), top))
  }

  /** What the walk prints. */
  function Listing(m: Memory, chunk: nat, top: nat): seq<Shown>
    requires !Stalls(m, chunk, top)
    decreases top - chunk
  {
    if chunk >= top then []
    else [ShowChunk(m, chunk, top)] + Listing(m, chunk + Size(m(chunk)), top)
  }

  /** print_heap; `from` is the address behind the first header. */
  method PrintHeap(m: Memory, from: nat, top: nat) returns (out: seq<Shown>)
    requires from >= 8 && !Stalls(m, from - 8, top)
    ensures out == Listing(m, from - 8, top)
  {
    out := [];
    var chunk := from - 8;
    while chunk < top
      invariant !Stalls(m, chunk, top)
      invariant out + Listing(m, chunk, top) == Listing(m, from - 8, top)
      decreases top - chunk
    {
      var next := chunk + Size(m(chunk));
      assert out + Listing(m, chunk, top) == (out + [ShowChunk(m, chunk, top)]) + Listing(m, next, top);
      out := out + [ShowChunk(m, chunk, top)];
      chunk := next;
    }
  }

  /** After `steps` turns of the loop, if it takes that many. */
  function ChunkAfter(m: Memory, chunk: nat, top: nat, steps: nat): nat
    decreases steps
  {
    if steps == 0 || chunk >= top then chunk
    else ChunkAfter(m, chunk + Size(m(chunk)), top, steps - 1)
  }

  lemma {:induction false} StallsForEver(m: Memory, chunk: nat, top: nat, steps: nat)
    requires Stalls(m, chunk, top)
    ensures ChunkAfter(m, chunk, top, steps) < top
    decreases steps
  {
    if steps > 0 {
      StallsForEver(m, chunk + Size(m(chunk)), top, steps - 1);
    }
  }

  lemma {:induction false} EndsUnlessStalled(m: Memory, chunk: nat, top: nat) returns (steps: nat)
    requires !Stalls(m, chunk, top)
    ensures ChunkAfter(m, chunk, top, steps) >= top
    decreases top - chunk
  {
    if chunk >= top {
      steps := 0;
    } else {
      var rest := EndsUnlessStalled(m, chunk + Size(m(chunk)), top);
      steps := rest + 1;
    }
  }

  /** The loop of print_heap ends if and only if no chunk on its way has size zero. */
  lemma EndsIff(m: Memory, chunk: nat, top: nat)
    ensures (exists steps: nat :: ChunkAfter(m, chunk, top, steps) >= top) <==> !Stalls(m, chunk, top)
  {
    if Stalls(m, chunk, top) {
      forall steps: nat
        ensures ChunkAfter(m, chunk, top, steps) < top
      {
        StallsForEver(m, chunk, top, steps);
      }
    } else {
      var steps := EndsUnlessStalled(m, chunk, top);
    }
  }

  /** print_chunk steps to the next header over the size with bit 2 and looks for its flag
      over the size without it: they meet if and only if bit 2 is clear. */
  lemma FlagIsInNextHeader(header: nat)
    ensures TagSize(header) == Size(header) <==> header % 8 < 4
    ensures header % 8 >= 4 ==> TagSize(header) == Size(header) - 4
  {
    assert header % 8 == header % 4 || header % 8 == header % 4 + 4;
  }

  // ---------------------------------------------------------------- a tiled heap

  /** What a chunk is; whether it is used is recorded in the header after it. */
  datatype Block = Block(size: nat, used: bool, mapped: bool)

  predicate ValidBlocks(blocks: seq<Block>) {
    forall k | 0 <= k < |blocks| :: blocks[k].size > 0 && blocks[k].size % 8 == 0
  }

  function Header(block: Block, previousUsed: bool): nat {
    block.size + (if previousUsed then 1 else 0) + (if block.mapped then 2 else 0)
  }

  /** The headers of a heap that starts at `base`. */
  function Headers(base: nat, blocks: seq<Block>, previousUsed: bool): map<nat, nat>
    decreases |blocks|
  {
    if blocks == [] then map[]
    else Headers(base + blocks[0].size, blocks[1..], blocks[0].used)[base := Header(blocks[0], previousUsed)]
  }

  function End(base: nat, blocks: seq<Block>): nat
    decreases |blocks|
  {
    if blocks == [] then base else End(base + blocks[0].size, blocks[1..])
  }

  /** What should be printed: every chunk with its size and place, and whether it is used;
      of the last chunk nothing records that, and it is shown as free. */
  function Expected(base: nat, blocks: seq<Block>): seq<Shown>
    decreases |blocks|
  {
    if blocks == [] then []
    else [Shown(|blocks| > 1 && blocks[0].used, blocks[0].size, base)] + Expected(base + blocks[0].size, blocks[1..])
  }

  /** The memory has these words; the rest of it is arbitrary. */
  ghost predicate Has(m: Memory, words: map<nat, nat>) {
    forall a: nat | a in words :: m(a) == words[a]
  }

  lemma {:induction false} HeadersAbove(base: nat, blocks: seq<Block>, previousUsed: bool)
    ensures forall a | a in Headers(base, blocks, previousUsed) :: a >= base
    decreases |blocks|
  {
    if blocks != [] {
      HeadersAbove(base + blocks[0].size, blocks[1..], blocks[0].used);
    }
  }

  lemma Remainder8(q: nat, r: nat)
    requires r < 8
    ensures (8 * q + r) % 8 == r
  {
  }

  lemma Remainder4(q: nat, r: nat)
    requires r < 4
    ensures (4 * q + r) % 4 == r
  {
  }

  lemma Remainder2(q: nat, r: nat)
    ensures (2 * q + r) % 2 == r % 2
  {
  }

  lemma FlagsOf(eights: nat, flags: nat)
    requires flags < 4
    ensures var word := 8 * eights + flags;
      word % 8 == flags && word % 4 == flags && word % 2 == flags % 2
  {
    Remainder8(eights, flags);
    Remainder4(2 * eights, flags);
    Remainder2(4 * eights, flags);
  }

  lemma HeaderParts(block: Block, previousUsed: bool)
    requires block.size % 8 == 0
    ensures Size(Header(block, previousUsed)) == TagSize(Header(block, previousUsed)) == block.size
    ensures Header(block, previousUsed) % 2 == 1 <==> previousUsed
  {
    var eights, flags := block.size / 8, Header(block, previousUsed) - block.size;
    assert Header(block, previousUsed) == 8 * eights + flags && flags < 4;
    FlagsOf(eights, flags);
  }

  lemma {:induction false} EndIsAbove(base: nat, blocks: seq<Block>)
    requires ValidBlocks(blocks)
    ensures End(base, blocks) >= base && (blocks != [] ==> End(base, blocks) > base)
    decreases |blocks|
  {
    if blocks != [] {
      EndIsAbove(base + blocks[0].size, blocks[1..]);
    }
  }

  lemma HasRest(m: Memory, base: nat, blocks: seq<Block>, previousUsed: bool)
    requires ValidBlocks(blocks) && blocks != [] && Has(m, Headers(base, blocks, previousUsed))
    ensures Has(m, Headers(base + blocks[0].size, blocks[1..], blocks[0].used))
  {
    var next := base + blocks[0].size;
    HeadersAbove(next, blocks[1..], blocks[0].used);
    forall a: nat | a in Headers(next, blocks[1..], blocks[0].used)
      ensures m(a) == Headers(next, blocks[1..], blocks[0].used)[a]
    {
      assert a in Headers(base, blocks, previousUsed);
    }
  }

  /** The first chunk of such a heap is shown as its block. */
  lemma FirstIsShown(m: Memory, base: nat, blocks: seq<Block>, previousUsed: bool)
    requires ValidBlocks(blocks) && blocks != [] && Has(m, Headers(base, blocks, previousUsed))
    ensures Size(m(base)) == blocks[0].size && base < End(base, blocks)
    ensures ShowChunk(m, base, End(base, blocks)) == Shown(|blocks| > 1 && blocks[0].used, blocks[0].size, base)
  {
    var block, rest := blocks[0], blocks[1..];
    assert base in Headers(base, blocks, previousUsed) && m(base) == Header(block, previousUsed);
    HeaderParts(block, previousUsed);
    HasRest(m, base, blocks, previousUsed);
    EndIsAbove(base, blocks);
    EndIsAbove(base + block.size, rest);
    if rest != [] {
      assert base + block.size in Headers(base + block.size, rest, block.used);
      HeaderParts(rest[0], block.used);
    }
  }

  /** Printing a heap that was laid out from a list of blocks gives that list back. */
  lemma {:induction false} HeapRoundTrip(m: Memory, base: nat, blocks: seq<Block>, previousUsed: bool)
    requires ValidBlocks(blocks) && Has(m, Headers(base, blocks, previousUsed))
    ensures !Stalls(m, base, End(base, blocks))
    ensures Listing(m, base, End(base, blocks)) == Expected(base, blocks)
    decreases |blocks|
  {
    if blocks != [] {
      FirstIsShown(m, base, blocks, previousUsed);
      HasRest(m, base, blocks, previousUsed);
      HeapRoundTrip(m, base + blocks[0].size, blocks[1..], blocks[0].used);
    }
  }

  lemma {:induction false} ExpectedAt(base: nat, blocks: seq<Block>, k: nat)
    requires k < |blocks|
    ensures |Expected(base, blocks)| == |blocks|
    ensures Expected(base, blocks)[k]
         == Shown(k + 1 < |blocks| && blocks[k].used, blocks[k].size, End(base, blocks[..k]))
    decreases |blocks|
  {
    if k > 0 {
      ExpectedAt(base + blocks[0].size, blocks[1..], k - 1);
      assert blocks[..k][1..] == blocks[1..][..k - 1];
    } else if |blocks| > 1 {
      ExpectedAt(base + blocks[0].size, blocks[1..], 0);
    }
  }

  // ---------------------------------------------------------------- the free list

  /** From the word at `at` on, the list goes through `ring` and comes back to `hdr`. A
      link holds the place 16 below the pointer it leads to. */
  ghost predicate Ring(m: Memory, hdr: nat, at: nat, ring: seq<nat>)
    decreases |ring|
  {
    if ring == [] then m(at) + 16 == hdr
    else m(at) + 16 == ring[0] != hdr && Ring(m, hdr, ring[0], ring[1..])
  }

  function ShowAll(m: Memory, ring: seq<nat>, top: nat): seq<Shown>
    requires forall k | 0 <= k < |ring| :: ring[k] >= 8
  {
    seq(|ring|, k requires 0 <= k < |ring| => ShowChunk(m, ring[k] - 8, top))
  }

  lemma {:induction false} RingIsHigh(m: Memory, hdr: nat, at: nat, ring: seq<nat>)
    requires Ring(m, hdr, at, ring)
    ensures forall k | 0 <= k < |ring| :: ring[k] >= 8
    decreases |ring|
  {
    if ring != [] {
      RingIsHigh(m, hdr, ring[0], ring[1..]);
    }
  }

  lemma {:induction false} RingFrom(m: Memory, hdr: nat, at: nat, ring: seq<nat>, k: nat)
    requires Ring(m, hdr, at, ring) && k < |ring|
    ensures ring[k] != hdr && Ring(m, hdr, ring[k], ring[k + 1..])
    decreases |ring|
  {
    if k > 0 {
      RingFrom(m, hdr, ring[0], ring[1..], k - 1);
      assert ring[1..][k..] == ring[k + 1..];
    }
  }

  /** What each member leads to. */
  lemma RingNext(m: Memory, hdr: nat, ring: seq<nat>, k: nat)
    requires Ring(m, hdr, hdr, ring) && k < |ring|
    ensures ring[k] != hdr && m(ring[k]) + 16 == if k + 1 == |ring| then hdr else ring[k + 1]
  {
    RingFrom(m, hdr, hdr, ring, k);
  }

  /** print_freelist. */
  method PrintFreelist(m: Memory, hdr: nat, top: nat, ghost ring: seq<nat>) returns (out: seq<Shown>)
    requires Ring(m, hdr, hdr, ring)
    ensures (forall k | 0 <= k < |ring| :: ring[k] >= 8) && out == ShowAll(m, ring, top)
  {
    RingIsHigh(m, hdr, hdr, ring);
    out := [];
    var temp := m(hdr) + 16;
    ghost var done := 0;
    while temp != hdr
      invariant done <= |ring| && |out| == done
      invariant temp == if done == |ring| then hdr else ring[done]
      invariant forall k | 0 <= k < done :: out[k] == ShowChunk(m, ring[k] - 8, top)
      decreases |ring| - done
    {
      RingNext(m, hdr, ring, done);
      out := out + [ShowChunk(m, temp - 8, top)];
      temp := m(temp) + 16;
      done := done + 1;
    }
    if done < |ring| {
      RingNext(m, hdr, ring, done);
    }
  }

  /** Any chunk of a heap that was laid out from blocks is shown as its block. */
  lemma {:induction false} BlockIsShown(m: Memory, base: nat, blocks: seq<Block>, previousUsed: bool, k: nat)
    requires ValidBlocks(blocks) && Has(m, Headers(base, blocks, previousUsed)) && k < |blocks|
    ensures |Expected(base, blocks)| == |blocks|
    ensures ShowChunk(m, End(base, blocks[..k]), End(base, blocks)) == Expected(base, blocks)[k]
    decreases |blocks|
  {
    ExpectedAt(base, blocks, k);
    if k == 0 {
      FirstIsShown(m, base, blocks, previousUsed);
    } else {
      HasRest(m, base, blocks, previousUsed);
      BlockIsShown(m, base + blocks[0].size, blocks[1..], blocks[0].used, k - 1);
      assert blocks[..k][1..] == blocks[1..][..k - 1];
    }
  }

  /** On such a heap the free list shows for each member, a pointer to the place behind a
      block's header, the size and place of its own block, and whether that is used: the
      entry the whole listing has for it. */
  lemma FreelistShowsBlocks(m: Memory, base: nat, blocks: seq<Block>, previousUsed: bool,
                            ring: seq<nat>, places: seq<nat>)
    requires ValidBlocks(blocks) && Has(m, Headers(base, blocks, previousUsed)) && |places| == |ring|
    requires forall i | 0 <= i < |ring| :: places[i] < |blocks|
    requires forall i | 0 <= i < |ring| :: ring[i] >= 8
    requires forall i | 0 <= i < |ring| :: ring[i] - 8 == End(base, blocks[..places[i]])
    ensures |Expected(base, blocks)| == |blocks|
    ensures var out := ShowAll(m, ring, End(base, blocks));
      |out| == |ring| && forall i | 0 <= i < |ring| :: out[i] == Expected(base, blocks)[places[i]]
  {
    if blocks != [] {
      ExpectedAt(base, blocks, 0);
    }
    forall i | 0 <= i < |ring|
      ensures ShowAll(m, ring, End(base, blocks))[i] == Expected(base, blocks)[places[i]]
    {
      BlockIsShown(m, base, blocks, previousUsed, places[i]);
    }
  }

  /** The list is determined by the memory, so no member comes twice. */
  lemma {:induction false} RingUnique(m: Memory, hdr: nat, at: nat, ring: seq<nat>, other: seq<nat>)
    requires Ring(m, hdr, at, ring) && Ring(m, hdr, at, other)
    ensures ring == other
    decreases |ring|
  {
    if ring != [] {
      assert other != [] && other[0] == ring[0];
      RingUnique(m, hdr, ring[0], ring[1..], other[1..]);
      assert ring == [ring[0]] + ring[1..] && other == [other[0]] + other[1..];
    }
  }

  lemma RingHasNoRepeats(m: Memory, hdr: nat, at: nat, ring: seq<nat>, j: nat, k: nat)
    requires Ring(m, hdr, at, ring) && j < k < |ring|
    ensures ring[j] != ring[k]
  {
    RingFrom(m, hdr, at, ring, j);
    RingFrom(m, hdr, at, ring, k);
    if ring[j] == ring[k] {
      RingUnique(m, hdr, ring[j], ring[j + 1..], ring[k + 1..]);
      assert false;
    }
  }
}
