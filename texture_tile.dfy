/** KisTextureTileUpdateInfo and its pixel buffers
    (libs/ui/opengl/kis_texture_tile_update_info.h): the geometry of one
    texture tile update (the tile, the updated patch inside it, the image),
    the grow-only byte buffer the pixels live in, and the channel-masking
    copy retrieveData runs over those bytes. */
module TextureTile {
  import opened Wrappers

  // ---------------------------------------------------------------------
  // Rectangles

  /** A QRect of non-negative size: left x, top y, width and height. */
  datatype Rect = Rect(x: int, y: int, width: nat, height: nat)
  {
    function Left(): int { x }
    function Top(): int { y }
    function Right(): int { x + width - 1 }
    function Bottom(): int { y + height - 1 }

    /** QRect::isNull: both sizes are zero. */
    predicate IsNull() { width == 0 && height == 0 }

    /** QRect::isValid: both sizes are positive. */
    predicate IsValid() { width > 0 && height > 0 }

    predicate Contains(px: int, py: int)
    {
      Left() <= px <= Right() && Top() <= py <= Bottom()
    }
  }

  /** QRect(): the null rectangle. */
  const NullRect := Rect(0, 0, 0, 0)

  function Max(a: int, b: int): int { if a < b then b else a }
  function Min(a: int, b: int): int { if a < b then a else b }

  /** QRect::operator&: the null rectangle when either side is null or
      they do not overlap, otherwise the overlapping box. */
  function Intersect(a: Rect, b: Rect): (r: Rect)
    ensures a.IsNull() || b.IsNull() ==> r == NullRect
    ensures r != NullRect ==>
              && a.Left() <= r.Left() && b.Left() <= r.Left() && r.Right() <= a.Right() && r.Right() <= b.Right()
              && a.Top() <= r.Top() && b.Top() <= r.Top() && r.Bottom() <= a.Bottom() && r.Bottom() <= b.Bottom()
  {
    if a.IsNull() || b.IsNull() then NullRect
    else if a.Left() > b.Right() || b.Left() > a.Right() then NullRect
    else if a.Top() > b.Bottom() || b.Top() > a.Bottom() then NullRect
    else
      var l := Max(a.Left(), b.Left());
      var t := Max(a.Top(), b.Top());
      Rect(l, t, Min(a.Right(), b.Right()) - l + 1, Min(a.Bottom(), b.Bottom()) - t + 1)
  }

  /** A point is in the intersection exactly when it is in both
      rectangles. */
  lemma IntersectContains(a: Rect, b: Rect, px: int, py: int)
    ensures Intersect(a, b).Contains(px, py) <==> a.Contains(px, py) && b.Contains(px, py)
  {
  }

  // ---------------------------------------------------------------------
  // Tile geometry

  /** The rectangle fields of KisTextureTileUpdateInfo. */
  datatype TileUpdateInfo = TileUpdateInfo(
    tileCol: int, tileRow: int,
    currentImageRect: Rect,
    tileRect: Rect, patchRect: Rect,
    originalTileRect: Rect, originalPatchRect: Rect,
    patchLevelOfDetail: int)

  /** The constructor: the patch is the part of the tile the update
      covers; at a coarser level of detail the patch is aligned and both
      rectangles are scaled.  `alignedRect` and `scaledRect` stand for
      KisLodTransform's functions. */
  function NewTileUpdateInfo(col: int, row: int, tileRect: Rect, updateRect: Rect, currentImageRect: Rect,
                             levelOfDetail: int,
                             alignedRect: (Rect, int) -> Rect, scaledRect: (Rect, int) -> Rect): (info: TileUpdateInfo)
    ensures info.tileCol == col && info.tileRow == row && info.patchLevelOfDetail == levelOfDetail
    ensures info.originalTileRect == tileRect && info.currentImageRect == currentImageRect
    ensures levelOfDetail == 0 ==>
              info.tileRect == tileRect && info.patchRect == Intersect(tileRect, updateRect) &&
              info.originalPatchRect == info.patchRect
    ensures levelOfDetail != 0 ==>
              && info.originalPatchRect == alignedRect(Intersect(tileRect, updateRect), levelOfDetail)
              && info.patchRect == scaledRect(info.originalPatchRect, levelOfDetail)
              && info.tileRect == scaledRect(tileRect, levelOfDetail)
  {
    var patch := Intersect(tileRect, updateRect);
    if levelOfDetail != 0 then
      var originalPatch := alignedRect(patch, levelOfDetail);
      TileUpdateInfo(col, row, currentImageRect, scaledRect(tileRect, levelOfDetail),
                     scaledRect(originalPatch, levelOfDetail), tileRect, originalPatch, levelOfDetail)
    else
      TileUpdateInfo(col, row, currentImageRect, tileRect, patch, tileRect, patch, levelOfDetail)
  }

  /** realPatchOffset: the patch's top-left corner relative to the
      tile's. */
  function RealPatchOffset(info: TileUpdateInfo): (offset: (int, int))
    ensures IsEntireTileUpdated(info) ==> offset == (0, 0)
  {
    (info.patchRect.x - info.tileRect.x, info.patchRect.y - info.tileRect.y)
  }

  predicate IsEntireTileUpdated(info: TileUpdateInfo)
  {
    info.patchRect == info.tileRect
  }

  predicate IsTopmost(info: TileUpdateInfo)
  {
    info.originalPatchRect.Top() == info.currentImageRect.Top()
  }

  predicate IsLeftmost(info: TileUpdateInfo)
  {
    info.originalPatchRect.Left() == info.currentImageRect.Left()
  }

  predicate IsRightmost(info: TileUpdateInfo)
  {
    info.originalPatchRect.Right() == info.currentImageRect.Right()
  }

  predicate IsBottommost(info: TileUpdateInfo)
  {
    info.originalPatchRect.Bottom() == info.currentImageRect.Bottom()
  }

  /** At full resolution a non-empty patch lies inside its tile: its
      offset is non-negative and it does not reach past the tile's far
      edges. */
  lemma PatchInsideTile(col: int, row: int, tileRect: Rect, updateRect: Rect, imageRect: Rect,
                        alignedRect: (Rect, int) -> Rect, scaledRect: (Rect, int) -> Rect)
    requires NewTileUpdateInfo(col, row, tileRect, updateRect, imageRect, 0, alignedRect, scaledRect).patchRect.IsValid()
    ensures var info := NewTileUpdateInfo(col, row, tileRect, updateRect, imageRect, 0, alignedRect, scaledRect);
            var (dx, dy) := RealPatchOffset(info);
            0 <= dx && dx + info.patchRect.width <= tileRect.width &&
            0 <= dy && dy + info.patchRect.height <= tileRect.height
  {
  }

  /** At full resolution the whole tile is updated exactly when the update
      rectangle covers every point of a non-empty tile. */
  lemma EntireTileUpdatedIff(col: int, row: int, tileRect: Rect, updateRect: Rect, imageRect: Rect,
                             alignedRect: (Rect, int) -> Rect, scaledRect: (Rect, int) -> Rect)
    requires tileRect.IsValid()
    ensures IsEntireTileUpdated(NewTileUpdateInfo(col, row, tileRect, updateRect, imageRect, 0, alignedRect, scaledRect))
            <==> forall px, py | tileRect.Contains(px, py) :: updateRect.Contains(px, py)
  {
    var info := NewTileUpdateInfo(col, row, tileRect, updateRect, imageRect, 0, alignedRect, scaledRect);
    if IsEntireTileUpdated(info) {
      forall px, py | tileRect.Contains(px, py) ensures updateRect.Contains(px, py) {
        IntersectContains(tileRect, updateRect, px, py);
      }
    }
    if forall px, py | tileRect.Contains(px, py) :: updateRect.Contains(px, py) {
      assert tileRect.Contains(tileRect.Left(), tileRect.Top());
      assert tileRect.Contains(tileRect.Right(), tileRect.Bottom());
      assert updateRect.Contains(tileRect.Left(), tileRect.Top());
      assert updateRect.Contains(tileRect.Right(), tileRect.Bottom());
    }
  }

  /** When the whole tile is updated at full resolution, the edge
      predicates are the tile's own edges compared with the image's. */
  lemma EdgesOfEntireTile(col: int, row: int, tileRect: Rect, updateRect: Rect, imageRect: Rect,
                          alignedRect: (Rect, int) -> Rect, scaledRect: (Rect, int) -> Rect)
    requires IsEntireTileUpdated(NewTileUpdateInfo(col, row, tileRect, updateRect, imageRect, 0, alignedRect, scaledRect))
    ensures var info := NewTileUpdateInfo(col, row, tileRect, updateRect, imageRect, 0, alignedRect, scaledRect);
            (IsTopmost(info) <==> tileRect.Top() == imageRect.Top()) &&
            (IsLeftmost(info) <==> tileRect.Left() == imageRect.Left()) &&
            (IsRightmost(info) <==> tileRect.Right() == imageRect.Right()) &&
            (IsBottommost(info) <==> tileRect.Bottom() == imageRect.Bottom())
  {
  }

  /** At full resolution an edge predicate can hold of a non-empty patch
      only when both the tile and the update reach that edge of the image. */
  lemma EdgesReachImage(col: int, row: int, tileRect: Rect, updateRect: Rect, imageRect: Rect,
                        alignedRect: (Rect, int) -> Rect, scaledRect: (Rect, int) -> Rect)
    requires NewTileUpdateInfo(col, row, tileRect, updateRect, imageRect, 0, alignedRect, scaledRect).patchRect != NullRect
    ensures var info := NewTileUpdateInfo(col, row, tileRect, updateRect, imageRect, 0, alignedRect, scaledRect);
            && (IsTopmost(info) ==> tileRect.Top() <= imageRect.Top() && updateRect.Top() <= imageRect.Top())
            && (IsLeftmost(info) ==> tileRect.Left() <= imageRect.Left() && updateRect.Left() <= imageRect.Left())
            && (IsRightmost(info) ==> imageRect.Right() <= tileRect.Right() && imageRect.Right() <= updateRect.Right())
            && (IsBottommost(info) ==> imageRect.Bottom() <= tileRect.Bottom() && imageRect.Bottom() <= updateRect.Bottom())
  {
  }

  const Two32: int := 0x1_0000_0000

  /** patchPixelsLength: pixel size times patch width times patch height,
      in 32-bit unsigned arithmetic. */
  function PatchPixelsLength(pixelSize: nat, patchRect: Rect): (n: nat)
    ensures n < Two32
    ensures pixelSize * patchRect.width * patchRect.height < Two32 ==>
              n == pixelSize * patchRect.width * patchRect.height
  {
    (pixelSize * patchRect.width * patchRect.height) % Two32
  }

  // ---------------------------------------------------------------------
  // Buffers

  /** ConversionCache::Buffer: a byte array that only grows. */
  class Buffer {
    var data: array<bv8>
    var size: int

    ghost predicate Valid()
      reads this
    {
      data.Length == size
    }

    constructor()
      ensures Valid() && size == 0 && fresh(data)
    {
      data := new bv8[0];
      size := 0;
    }

    /** A request for more than the current size replaces the array with
        one of the requested size; any other request changes nothing. */
    method EnsureNotSmaller(n: int)
      requires Valid()
      modifies this
      ensures Valid()
      ensures size >= n && size >= old(size)
      ensures n > old(size) ==> size == n && fresh(data)
      ensures n <= old(size) ==> size == old(size) && data == old(data)
    {
      if n > size {
        data := new bv8[n];
        size := n;
      }
    }

    /** Exchange arrays and sizes with another buffer. */
    method Swap(rhs: Buffer)
      modifies this, rhs
      ensures data == old(rhs.data) && size == old(rhs.size)
      ensures rhs.data == old(data) && rhs.size == old(size)
    {
      var d, s := data, size;
      data, size := rhs.data, rhs.size;
      rhs.data, rhs.size := d, s;
    }
  }

  /** Swapping twice puts both buffers back as they were. */
  method SwapTwice(a: Buffer, b: Buffer)
    modifies a, b
    ensures a.data == old(a.data) && a.size == old(a.size)
    ensures b.data == old(b.data) && b.size == old(b.size)
  {
    a.Swap(b);
    a.Swap(b);
  }

  // ---------------------------------------------------------------------
  // Channel copy

  /** What the copy does to one channel slot of every pixel. */
  datatype ChannelOp =
    | CopySame            // copy the slot's own bytes
    | CopyFrom(pos: nat)  // copy the bytes at byte offset `pos` of the pixel
    | Zero                // fill with zeros
    | Keep                // leave the slot alone

  /** KoChannelInfo::enumChannelType. */
  datatype ChannelType = Color | Alpha | Substance | Substrate

  /** The flag mode: a channel whose flag is set is copied, any other is
      zeroed. */
  function FlagOps(flags: seq<bool>, channelCount: nat): (ops: seq<ChannelOp>)
    requires channelCount <= |flags|
    ensures |ops| == channelCount
    ensures forall c | 0 <= c < channelCount :: ops[c] == (if flags[c] then CopySame else Zero)
  {
    seq(channelCount, c requires 0 <= c < channelCount => if flags[c] then CopySame else Zero)
  }

  /** The single-channel mode: colour channels get the selected channel's
      bytes, alpha is copied, other channels are not written. */
  function SingleChannelOps(types: seq<ChannelType>, selectedPos: nat): (ops: seq<ChannelOp>)
    ensures |ops| == |types|
    ensures forall c | 0 <= c < |types| ::
              ops[c] == (match types[c] case Color => CopyFrom(selectedPos) case Alpha => CopySame case _ => Keep)
  {
    seq(|types|, c requires 0 <= c < |types| =>
      match types[c] case Color => CopyFrom(selectedPos) case Alpha => CopySame case _ => Keep)
  }

  /** Which pixel, which channel slot and which byte of the slot a buffer
      index falls in. */
  function PixelOf(i: nat, pixelSize: nat): nat
    requires pixelSize > 0
  {
    i / pixelSize
  }

  function ChannelOf(i: nat, pixelSize: nat, channelSize: nat): nat
    requires pixelSize > 0 && channelSize > 0
  {
    (i % pixelSize) / channelSize
  }

  function ByteOf(i: nat, pixelSize: nat, channelSize: nat): nat
    requires pixelSize > 0 && channelSize > 0
  {
    (i % pixelSize) % channelSize
  }

  function Offset(p: nat, c: nat, b: nat, pixelSize: nat, channelSize: nat): nat
  {
    p * pixelSize + c * channelSize + b
  }

  /** The byte the copy writes at index i of the destination, or None
      when index i is past the pixels, past the channels, or in a slot
      whose operation is Keep. */
  function Written(src: seq<bv8>, i: nat, numPixels: nat, pixelSize: nat, channelSize: nat,
                   ops: seq<ChannelOp>): Option<bv8>
    requires pixelSize > 0 && channelSize > 0
    requires numPixels * pixelSize <= |src|
    requires forall c | 0 <= c < |ops| :: ops[c].CopyFrom? ==> ops[c].pos + channelSize <= pixelSize
  {
    var p := PixelOf(i, pixelSize);
    var c := ChannelOf(i, pixelSize, channelSize);
    if p < numPixels && c < |ops| then
      Recompose(i, pixelSize, channelSize);
      PixelBound(p, numPixels, pixelSize);
      match ops[c]
        case CopySame => Some(src[i])
        case CopyFrom(pos) => Some(src[p * pixelSize + pos + ByteOf(i, pixelSize, channelSize)])
        case Zero => Some(0)
        case Keep => None
    else None
  }

  /** Index i lies in a slot the copy has reached by pixel p, channel c. */
  predicate Done(i: nat, p: nat, c: nat, pixelSize: nat, channelSize: nat)
    requires pixelSize > 0 && channelSize > 0
  {
    PixelOf(i, pixelSize) < p || (PixelOf(i, pixelSize) == p && ChannelOf(i, pixelSize, channelSize) < c)
  }

  /** The byte at index i after the copy, given the byte before it. */
  function After(before: bv8, w: Option<bv8>): bv8
  {
    match w
      case Some(v) => v
      case None => before
  }

  /** memcpy of n bytes from src[srcStart..] to dst[dstStart..]. */
  method CopyBytes(dst: array<bv8>, dstStart: nat, src: array<bv8>, srcStart: nat, n: nat)
    requires dst != src
    requires dstStart + n <= dst.Length && srcStart + n <= src.Length
    modifies dst
    ensures forall i | 0 <= i < dst.Length ::
              dst[i] == if dstStart <= i < dstStart + n then src[srcStart + (i - dstStart)] else old(dst[i])
  {
    var k := 0;
    while k < n
      invariant 0 <= k <= n
      invariant forall i | 0 <= i < dst.Length ::
                  dst[i] == if dstStart <= i < dstStart + k then src[srcStart + (i - dstStart)] else old(dst[i])
    {
      dst[dstStart + k] := src[srcStart + k];
      k := k + 1;
    }
  }

  /** memset of n bytes of dst[start..] to zero. */
  method FillZero(dst: array<bv8>, start: nat, n: nat)
    requires start + n <= dst.Length
    modifies dst
    ensures forall i | 0 <= i < dst.Length :: dst[i] == if start <= i < start + n then 0 else old(dst[i])
  {
    var k := 0;
    while k < n
      invariant 0 <= k <= n
      invariant forall i | 0 <= i < dst.Length :: dst[i] == if start <= i < start + k then 0 else old(dst[i])
    {
      dst[start + k] := 0;
      k := k + 1;
    }
  }

  /** The nested pixel and channel loops of retrieveData: every byte of
      every slot of every pixel gets what `ops` says; nothing else in dst
      changes. */
  method CopyChannels(src: array<bv8>, dst: array<bv8>, numPixels: nat, pixelSize: nat, channelSize: nat,
                      ops: seq<ChannelOp>)
    requires src != dst
    requires pixelSize > 0 && channelSize > 0
    requires |ops| * channelSize <= pixelSize
    requires numPixels * pixelSize <= src.Length && numPixels * pixelSize <= dst.Length
    requires forall c | 0 <= c < |ops| :: ops[c].CopyFrom? ==> ops[c].pos + channelSize <= pixelSize
    modifies dst
    ensures forall i | 0 <= i < dst.Length ::
              dst[i] == After(old(dst[i]), Written(src[..], i, numPixels, pixelSize, channelSize, ops))
  {
    var p := 0;
    while p < numPixels
      invariant 0 <= p <= numPixels
      invariant forall i | 0 <= i < dst.Length ::
                  dst[i] == if Done(i, p, 0, pixelSize, channelSize)
                            then After(old(dst[i]), Written(src[..], i, numPixels, pixelSize, channelSize, ops))
                            else old(dst[i])
    {
      PixelBound(p, numPixels, pixelSize);
      var c := 0;
      while c < |ops|
        invariant 0 <= c <= |ops|
        invariant forall i | 0 <= i < dst.Length ::
                    dst[i] == if Done(i, p, c, pixelSize, channelSize)
                              then After(old(dst[i]), Written(src[..], i, numPixels, pixelSize, channelSize, ops))
                              else old(dst[i])
      {
        PixelBound(c, |ops|, channelSize);
        var start := p * pixelSize + c * channelSize;
        match ops[c] {
          case CopySame => CopyBytes(dst, start, src, start, channelSize);
          case CopyFrom(pos) => CopyBytes(dst, start, src, p * pixelSize + pos, channelSize);
          case Zero => FillZero(dst, start, channelSize);
          case Keep =>
        }
        forall i | 0 <= i < dst.Length
          ensures dst[i] == if Done(i, p, c + 1, pixelSize, channelSize)
                            then After(old(dst[i]), Written(src[..], i, numPixels, pixelSize, channelSize, ops))
                            else old(dst[i])
        {
          Slot(i, p, c, pixelSize, channelSize);
        }
        c := c + 1;
      }
      forall i | 0 <= i < dst.Length
        ensures dst[i] == if Done(i, p + 1, 0, pixelSize, channelSize)
                          then After(old(dst[i]), Written(src[..], i, numPixels, pixelSize, channelSize, ops))
                          else old(dst[i])
      {
      }
      p := p + 1;
    }
  }

  /** KoChannelInfo as far as retrieveData reads it. */
  datatype ChannelInfo = ChannelInfo(channelType: ChannelType, pos: nat, size: nat)

  /** The operations retrieveData applies: single-channel mode when one
      channel is selected and it is not to be shown as colour, otherwise
      the flag mode over every channel of the colour space. */
  function RetrieveOps(channels: seq<ChannelInfo>, channelFlags: seq<bool>, onlyOneChannelSelected: bool,
                       showSingleChannelAsColor: bool, selectedChannelIndex: nat): (ops: seq<ChannelOp>)
    requires selectedChannelIndex < |channels|
    requires !(onlyOneChannelSelected && !showSingleChannelAsColor) ==> |channels| <= |channelFlags|
    ensures |ops| == |channels|
    ensures forall c | 0 <= c < |ops| :: ops[c].CopyFrom? ==> ops[c].pos == channels[selectedChannelIndex].pos
    ensures onlyOneChannelSelected && !showSingleChannelAsColor ==>
              ops == SingleChannelOps(seq(|channels|, c requires 0 <= c < |channels| => channels[c].channelType),
                                      channels[selectedChannelIndex].pos)
    ensures !(onlyOneChannelSelected && !showSingleChannelAsColor) ==> ops == FlagOps(channelFlags, |channels|)
  {
    if onlyOneChannelSelected && !showSingleChannelAsColor then
      SingleChannelOps(seq(|channels|, c requires 0 <= c < |channels| => channels[c].channelType),
                       channels[selectedChannelIndex].pos)
    else FlagOps(channelFlags, |channels|)
  }

  /** retrieveData after readBytes has filled `patch`: with no channel
      flags nothing happens; otherwise the cache grows to the patch
      length, the channel copy runs from the patch into the cache, and the
      two buffers are swapped, so the patch now holds the converted bytes
      and the cache the bytes read. */
  method RetrieveData(patch: Buffer, cache: Buffer, channels: seq<ChannelInfo>, channelFlags: seq<bool>,
                      onlyOneChannelSelected: bool, showSingleChannelAsColor: bool, selectedChannelIndex: nat,
                      pixelSize: nat, numPixels: nat)
    requires patch != cache && patch.Valid() && cache.Valid() && patch.data != cache.data
    requires numPixels * pixelSize <= patch.size
    requires |channelFlags| > 0 ==>
               selectedChannelIndex < |channels| && pixelSize > 0 && channels[selectedChannelIndex].size > 0 &&
               |channels| * channels[selectedChannelIndex].size <= pixelSize &&
               (if onlyOneChannelSelected && !showSingleChannelAsColor
                then channels[selectedChannelIndex].pos + channels[selectedChannelIndex].size <= pixelSize
                else |channels| <= |channelFlags|)
    modifies patch, cache, cache.data
    ensures patch.Valid() && cache.Valid()
    ensures |channelFlags| == 0 ==>
              patch.data == old(patch.data) && patch.size == old(patch.size) &&
              cache.data == old(cache.data) && cache.size == old(cache.size) &&
              cache.data[..] == old(cache.data[..])
    ensures |channelFlags| > 0 ==>
              cache.data == old(patch.data) && cache.size == old(patch.size) && cache.data[..] == old(patch.data[..]) &&
              patch.size == (if numPixels * pixelSize > old(cache.size) then numPixels * pixelSize else old(cache.size))
    ensures |channelFlags| > 0 ==>
              var ops := RetrieveOps(channels, channelFlags, onlyOneChannelSelected, showSingleChannelAsColor,
                                     selectedChannelIndex);
              forall i | 0 <= i < patch.data.Length ::
                Written(old(patch.data[..]), i, numPixels, pixelSize, channels[selectedChannelIndex].size, ops).Some? ==>
                  patch.data[i] ==
                  Written(old(patch.data[..]), i, numPixels, pixelSize, channels[selectedChannelIndex].size, ops).value
    ensures |channelFlags| > 0 && numPixels * pixelSize <= old(cache.size) ==>
              var ops := RetrieveOps(channels, channelFlags, onlyOneChannelSelected, showSingleChannelAsColor,
                                     selectedChannelIndex);
              patch.data == old(cache.data) &&
              forall i | 0 <= i < patch.data.Length ::
                patch.data[i] == After(old(cache.data[i]), Written(old(patch.data[..]), i, numPixels, pixelSize,
                                                                   channels[selectedChannelIndex].size, ops))
  {
    if |channelFlags| == 0 {
      return;
    }
    var length := numPixels * pixelSize;
    cache.EnsureNotSmaller(length);
    var channelSize := channels[selectedChannelIndex].size;
    var ops := RetrieveOps(channels, channelFlags, onlyOneChannelSelected, showSingleChannelAsColor,
                           selectedChannelIndex);
    CopyChannels(patch.data, cache.data, numPixels, pixelSize, channelSize, ops);
    cache.Swap(patch);
  }

  /** Flag mode: every byte of a channel slot inside the patch is the
      source byte when the channel's flag is set and zero otherwise; bytes
      past the last channel are not written. */
  lemma FlagModeBytes(src: seq<bv8>, flags: seq<bool>, channelCount: nat, numPixels: nat, pixelSize: nat,
                      channelSize: nat, i: nat)
    requires pixelSize > 0 && channelSize > 0 && channelCount <= |flags|
    requires numPixels * pixelSize <= |src| && i < numPixels * pixelSize
    ensures ChannelOf(i, pixelSize, channelSize) < channelCount ==>
              Written(src, i, numPixels, pixelSize, channelSize, FlagOps(flags, channelCount)) ==
              Some(if flags[ChannelOf(i, pixelSize, channelSize)] then src[i] else 0)
    ensures ChannelOf(i, pixelSize, channelSize) >= channelCount ==>
              Written(src, i, numPixels, pixelSize, channelSize, FlagOps(flags, channelCount)) == None
  {
    PixelInRange(i, numPixels, pixelSize);
  }

  /** Single-channel mode: the bytes of a colour slot come from the
      selected channel's position in the same pixel, alpha bytes are
      copied, and substance, substrate and bytes past the last channel are
      not written. */
  lemma SingleChannelBytes(src: seq<bv8>, types: seq<ChannelType>, selectedPos: nat, numPixels: nat,
                           pixelSize: nat, channelSize: nat, i: nat)
    requires pixelSize > 0 && channelSize > 0 && selectedPos + channelSize <= pixelSize
    requires numPixels * pixelSize <= |src| && i < numPixels * pixelSize
    ensures PixelOf(i, pixelSize) * pixelSize + selectedPos + ByteOf(i, pixelSize, channelSize) < |src|
    ensures var c := ChannelOf(i, pixelSize, channelSize);
            var w := Written(src, i, numPixels, pixelSize, channelSize, SingleChannelOps(types, selectedPos));
            (c < |types| && types[c] == Color ==>
               w == Some(src[PixelOf(i, pixelSize) * pixelSize + selectedPos + ByteOf(i, pixelSize, channelSize)])) &&
            (c < |types| && types[c] == Alpha ==> w == Some(src[i])) &&
            (c >= |types| || types[c] == Substance || types[c] == Substrate ==> w == None)
  {
    PixelInRange(i, numPixels, pixelSize);
    Recompose(i, pixelSize, channelSize);
    PixelBound(PixelOf(i, pixelSize), numPixels, pixelSize);
  }

  /** An index below numPixels * pixelSize falls in one of the first
      numPixels pixels. */
  lemma PixelInRange(i: nat, numPixels: nat, pixelSize: nat)
    requires pixelSize > 0 && i < numPixels * pixelSize
    ensures PixelOf(i, pixelSize) < numPixels
  {
    var q := i / pixelSize;
    assert q * pixelSize + i % pixelSize == i;
    MulMonotone(numPixels, q, pixelSize);
  }

  lemma MulMonotone(a: int, b: int, n: nat)
    ensures a <= b ==> a * n <= b * n
  {
    Distribute(a, b - a, n);
    if a <= b {
      var d: nat := b - a;
      assert d * n >= 0;
    }
  }

  /** Index i is in slot (p, c) exactly when it lies in that slot's byte
      range, and then its byte within the slot is its distance from the
      slot's start. */
  lemma Slot(i: nat, p: nat, c: nat, pixelSize: nat, channelSize: nat)
    requires pixelSize > 0 && channelSize > 0
    requires c * channelSize + channelSize <= pixelSize
    ensures (PixelOf(i, pixelSize) == p && ChannelOf(i, pixelSize, channelSize) == c) <==>
            p * pixelSize + c * channelSize <= i < p * pixelSize + c * channelSize + channelSize
    ensures p * pixelSize + c * channelSize <= i < p * pixelSize + c * channelSize + channelSize ==>
            ByteOf(i, pixelSize, channelSize) == i - (p * pixelSize + c * channelSize)
  {
    Recompose(i, pixelSize, channelSize);
    if p * pixelSize + c * channelSize <= i < p * pixelSize + c * channelSize + channelSize {
      Decompose(p, c, i - (p * pixelSize + c * channelSize), pixelSize, channelSize);
    }
  }

  lemma Recompose(i: nat, pixelSize: nat, channelSize: nat)
    requires pixelSize > 0 && channelSize > 0
    ensures i == Offset(PixelOf(i, pixelSize), ChannelOf(i, pixelSize, channelSize), ByteOf(i, pixelSize, channelSize),
                        pixelSize, channelSize)
    ensures ByteOf(i, pixelSize, channelSize) < channelSize
    ensures ChannelOf(i, pixelSize, channelSize) * channelSize + ByteOf(i, pixelSize, channelSize) < pixelSize
  {
  }

  lemma Decompose(p: nat, c: nat, b: nat, pixelSize: nat, channelSize: nat)
    requires pixelSize > 0 && channelSize > 0
    requires b < channelSize && c * channelSize + b < pixelSize
    ensures PixelOf(Offset(p, c, b, pixelSize, channelSize), pixelSize) == p
    ensures ChannelOf(Offset(p, c, b, pixelSize, channelSize), pixelSize, channelSize) == c
    ensures ByteOf(Offset(p, c, b, pixelSize, channelSize), pixelSize, channelSize) == b
  {
    DivModUnique(p, c * channelSize + b, pixelSize);
    DivModUnique(c, b, channelSize);
  }

  /** Euclidean division of p * n + r by n, for 0 <= r < n. */
  lemma DivModUnique(p: nat, r: nat, n: nat)
    requires 0 <= r < n
    ensures (p * n + r) / n == p && (p * n + r) % n == r
  {
    var i := p * n + r;
    var q := i / n;
    var s := i % n;
    assert q * n + s == i;
    assert (q - p) * n == r - s;
    MulAwayFromZero(q - p, n);
  }

  lemma MulAwayFromZero(a: int, n: int)
    requires n >= 0
    ensures a >= 1 ==> a * n >= n
    ensures a <= -1 ==> a * n <= -n
  {
    assert a * n - n == (a - 1) * n;
    assert a * n + n == (a + 1) * n;
  }

  /** A pixel below the count starts a whole pixel before the end. */
  lemma PixelBound(p: nat, numPixels: nat, pixelSize: nat)
    requires p < numPixels
    ensures p * pixelSize + pixelSize <= numPixels * pixelSize
  {
    var k: nat := numPixels - p - 1;
    Distribute(p + 1, k, pixelSize);
    Distribute(p, 1, pixelSize);
    assert k * pixelSize >= 0;
  }

  lemma Distribute(x: int, y: int, z: int)
    ensures (x + y) * z == x * z + y * z
  {
  }
}
