/** The off-screen pixel buffer and its allocator (`ResizeBackBuffer`).
    Memory is abstract: a handle per committed region and the set of regions
    the process has committed, with their sizes. `VirtualAlloc` either fails
    (an input) or hands out the heap's next handle, which is never a live one. */
module Backbuffer {
  import opened Machine
  import opened Wrappers

  type Handle = nat

  /** The process's committed memory: each live region's size in bytes, and
      the handle the next successful `VirtualAlloc` returns. */
  datatype Heap = Heap(committed: map<Handle, nat>, next: Handle)

  const EmptyHeap: Heap := Heap(map[], 0)

  /** Handles not yet handed out are not live. */
  predicate HeapValid(heap: Heap) {
    forall h :: h in heap.committed ==> h < heap.next
  }

  /** `sizeof(BITMAPINFOHEADER)`. */
  const HeaderSize: U32 := 40
  /** `BI_RGB`: uncompressed pixels. */
  const BiRgb: nat := 0

  /** The fields of `BITMAPINFOHEADER` the allocator writes; the rest stay zero. */
  datatype BitmapHeader = BitmapHeader(
    size: U32,
    width: I32,
    height: I32,
    planes: nat,
    bitCount: nat,
    compression: nat)

  /** The header of a zero-initialized window state. */
  const ZeroHeader: BitmapHeader := BitmapHeader(0, 0, 0, 0, 0, 0)

  /** `BackBufferMemory`, `BackBufferWidth`/`Height`/`Stride` and `BackBufferInfo`. */
  datatype Buffer = Buffer(
    memory: Option<Handle>,
    width: U32,
    height: U32,
    stride: U32,
    header: BitmapHeader)

  /** The backbuffer of a zero-initialized window state: no memory. */
  const NoBuffer: Buffer := Buffer(None, 0, 0, 0, ZeroHeader)

  /** The regions a buffer refers to. */
  function Owned(b: Buffer): (s: set<Handle>)
    ensures forall m :: m in s <==> b.memory == Some(m)
  {
    if b.memory.Some? then {b.memory.value} else {}
  }

  /** `num_bytes`: width * height * 4, computed in a 64-bit `size_t`. */
  function AllocationSize(w: U32, h: U32): (n: nat)
    ensures n < TWO_64
    ensures w * h < 0x4000_0000_0000_0000 ==> n == w * h * 4
  {
    (w * h * 4) % TWO_64
  }

  /** An extent of two non-zero 16-bit halves (a `WM_SIZE` lparam) never
      wraps the byte count and never asks for zero bytes. */
  lemma WordExtentAllocates(w: U32, h: U32)
    requires 0 < w < 0x1_0000 && 0 < h < 0x1_0000
    ensures AllocationSize(w, h) == w * h * 4 > 0
  {
    MulMonotone(w, 0x1_0000, h);
    MulMonotone(1, w, h);
  }

  /** The header describing a `w` x `h` 32-bit top-down (negative height) DIB. */
  function HeaderFor(w: U32, h: U32): (hd: BitmapHeader)
    ensures hd.size == HeaderSize && hd.planes == 1 && hd.bitCount == 32 && hd.compression == BiRgb
    ensures w < 0x8000_0000 ==> hd.width == w
    ensures h < 0x8000_0000 ==> hd.height + h == 0
  {
    BitmapHeader(HeaderSize, WrapI32(w), WrapI32(0 - (WrapI32(h) as int)), 1, 32, BiRgb)
  }

  /** The header's geometry matches the buffer it is presented with. */
  predicate HeaderDescribes(b: Buffer) {
    b.header.width == b.width && b.header.height + b.height == 0
  }

  /** The buffer owns exactly the committed memory: its region (if any) is
      the only live one, holds width * height * 4 bytes, and rows are
      4 * width bytes apart. */
  predicate Owns(b: Buffer, heap: Heap) {
    && heap.committed.Keys == Owned(b)
    && (b.memory.Some? ==>
          && heap.committed[b.memory.value] == AllocationSize(b.width, b.height)
          && b.stride == WrapU32(b.width * 4))
  }

  /** The early-out of `ResizeBackBuffer`: same size and a buffer exists. */
  predicate SameSize(b: Buffer, w: U32, h: U32) {
    w == b.width && h == b.height && b.memory.Some?
  }

  /** `VirtualFree(mem, 0, MEM_RELEASE)` on a possibly-null pointer. */
  function Release(committed: map<Handle, nat>, mem: Option<Handle>): (c: map<Handle, nat>)
    ensures mem.None? ==> c == committed
    ensures mem.Some? ==> c.Keys == committed.Keys - {mem.value}
    ensures forall h :: h in c ==> h in committed && c[h] == committed[h]
  {
    if mem.Some? then committed - {mem.value} else committed
  }

  /** `VirtualAlloc(nullptr, num_bytes, ...)` returns a region: the system
      grants the request (`allocOk`) and the request is not for zero bytes,
      which `VirtualAlloc` refuses. */
  predicate Allocates(w: U32, h: U32, allocOk: bool) {
    allocOk && AllocationSize(w, h) > 0
  }

  /** The status code, the backbuffer and the heap after `ResizeBackBuffer`. */
  datatype Resized = Resized(code: int, buffer: Buffer, heap: Heap)

  /** `ResizeBackBuffer(window, w, h)`: `allocOk` is whether the system grants
      a non-empty `VirtualAlloc` request. The header is rewritten before the
      allocation is attempted. */
  function Resize(b: Buffer, heap: Heap, w: U32, h: U32, allocOk: bool): (r: Resized)
    // the early-out touches nothing
    ensures SameSize(b, w, h) ==> r == Resized(0, b, heap)
    ensures r.code == 0 || r.code == -1
    ensures r.code == -1 <==> !SameSize(b, w, h) && !Allocates(w, h, allocOk)
    // success means a buffer of exactly the requested size
    ensures r.code == 0 ==> r.buffer.memory.Some? && r.buffer.width == w && r.buffer.height == h
    // failure keeps the previous buffer and the heap; only the header moved
    ensures r.code == -1 ==> r.heap == heap && r.buffer == b.(header := HeaderFor(w, h))
    // a fresh allocation installs a new region and frees the previous one
    ensures !SameSize(b, w, h) && Allocates(w, h, allocOk) ==>
      && r.buffer.memory == Some(heap.next)
      && r.buffer.header == HeaderFor(w, h)
      && (w < 0x4000_0000 ==> r.buffer.stride == 4 * w)
      && r.heap.committed.Keys == (heap.committed.Keys + {heap.next}) - Owned(b)
    ensures HeapValid(heap) ==> HeapValid(r.heap)
    ensures HeapValid(heap) && Owns(b, heap) ==> Owns(r.buffer, r.heap)
  {
    if SameSize(b, w, h) then
      Resized(0, b, heap)
    else
      var header := HeaderFor(w, h);
      if !Allocates(w, h, allocOk) then
        Resized(-1, b.(header := header), heap)
      else
        var mem := heap.next;
        var installed := Buffer(Some(mem), w, h, WrapU32(w * 4), header);
        var committed := heap.committed[mem := AllocationSize(w, h)];
        Resized(0, installed, Heap(Release(committed, b.memory), heap.next + 1))
  }

  /** A successful reallocation hands over from the old region to a fresh one:
      afterwards exactly the new region, of w * h * 4 bytes, is live, and the
      previous region (if any) has been released. */
  lemma ResizeHandsOver(b: Buffer, heap: Heap, w: U32, h: U32)
    requires HeapValid(heap) && Owns(b, heap)
    requires !SameSize(b, w, h) && Allocates(w, h, true)
    ensures var r := Resize(b, heap, w, h, true);
      && r.code == 0
      && r.buffer.memory.Some?
      && r.buffer.memory.value !in heap.committed
      && r.heap.committed == map[r.buffer.memory.value := AllocationSize(w, h)]
      && (b.memory.Some? ==> b.memory.value !in r.heap.committed)
  {
    var r := Resize(b, heap, w, h, true);
    assert heap.next !in heap.committed;
    assert r.heap.committed.Keys == {heap.next};
  }

  /** A size-changing resize to an empty extent always fails: the zero-byte
      request is refused whatever the system would grant, so the previous
      buffer stays and only the header moves. */
  lemma EmptyResizeFails(b: Buffer, heap: Heap, w: U32, h: U32, allocOk: bool)
    requires w == 0 || h == 0
    requires !SameSize(b, w, h)
    ensures var r := Resize(b, heap, w, h, allocOk);
      && r.code == -1
      && r.heap == heap
      && r.buffer == b.(header := HeaderFor(w, h))
  {
  }

  /** Resizing twice to the same size allocates once: the second call is the
      early-out and succeeds whatever the allocator would have done. */
  lemma ResizeIdempotent(b: Buffer, heap: Heap, w: U32, h: U32, first: bool, second: bool)
    requires Resize(b, heap, w, h, first).code == 0
    ensures var r := Resize(b, heap, w, h, first);
      Resize(r.buffer, r.heap, w, h, second) == r
  {
  }

  /** After a failed size-changing resize the header no longer describes the
      kept buffer: it carries the requested size while the memory still has
      the old one. A successful resize always leaves a matching header. */
  lemma ResizeHeaderAgreement(b: Buffer, heap: Heap, w: U32, h: U32, allocOk: bool)
    requires w < 0x8000_0000 && h < 0x8000_0000
    requires HeaderDescribes(b) || !SameSize(b, w, h)
    ensures var r := Resize(b, heap, w, h, allocOk);
      HeaderDescribes(r.buffer) <==> r.code == 0 || (w == b.width && h == b.height)
  {
  }

  /** The region a valid buffer exposes, `height * stride` bytes, is exactly
      the committed allocation whenever a row fits in 32 bits. */
  lemma FramebufferFitsAllocation(b: Buffer, heap: Heap)
    requires Owns(b, heap) && b.memory.Some?
    requires b.width < 0x4000_0000
    ensures b.height * b.stride == heap.committed[b.memory.value]
  {
    var w: int, h: int := b.width, b.height;
    assert b.stride == w * 4;
    assert w * h <= 0x4000_0000 * h by {
      MulMonotone(w, 0x4000_0000, h);
    }
    assert AllocationSize(w, h) == w * h * 4;
    assert h * (w * 4) == w * h * 4;
  }
}
