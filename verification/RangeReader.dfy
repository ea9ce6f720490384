/**
 Reading an object in pieces: sequential windows, one whole read cut up, or rounds of parallel ranges. On every
 path the pieces, in the order they are handed out, make up the object.
 */
module RangeReader {
  import opened Basics
  import opened TransferBudget

  const DEFAULT_CHUNK_SIZE: nat := 8 * 1024 * 1024

  /** How a range request is answered: with up to `count` bytes, with the whole object because the server
      does not do ranges, or by raising. */
  datatype Reply = Got(count: nat) | Whole | Error

  /** What the stat before the transfer said. `statSize` is None if it raised or denied range support. */
  datatype Source = Source(content: Bytes, supportsRanges: bool, probes: bool, statSize: Option<nat>)

  // ----- cutting up what was read at once -----

  /** Pieces of `size` bytes, of which only the last may be shorter, and not even that if more are to come. */
  ghost predicate Pieces(chunks: seq<Bytes>, size: nat, more: bool) {
    forall i :: 0 <= i < |chunks| ==>
      1 <= |chunks[i]| <= size && (more || i < |chunks| - 1 ==> |chunks[i]| == size)
  }

  lemma NoPieces(size: nat, more: bool)
    ensures Pieces([], size, more) && Flatten<bv8>([]) == []
  {
  }

  lemma PieceAdds(chunks: seq<Bytes>, size: nat, piece: Bytes, more: bool)
    requires Pieces(chunks, size, true) && 1 <= |piece| <= size && (more ==> |piece| == size)
    ensures Pieces(chunks + [piece], size, more)
  {
  }

  lemma PiecesJoin(a: seq<Bytes>, b: seq<Bytes>, size: nat, more: bool)
    requires Pieces(a, size, true) && Pieces(b, size, more)
    ensures Pieces(a + b, size, more)
  {
  }

  lemma PiecesStop(chunks: seq<Bytes>, size: nat, more: bool)
    requires Pieces(chunks, size, more)
    ensures Pieces(chunks, size, false)
  {
  }

  method Windows(data: Bytes, window: nat) returns (chunks: seq<Bytes>)
    requires window >= 1
    ensures Flatten(chunks) == data && Pieces(chunks, window, false)
  {
    chunks := [];
    var offset := 0;
    NoPieces(window, offset < |data|);
    hide Pieces;
    while offset < |data|
      invariant 0 <= offset
      invariant Flatten(chunks) == data[..Min(offset, |data|)] && Pieces(chunks, window, offset < |data|)
      decreases |data| - offset
    {
      var next := Min(offset + window, |data|);
      FlattenAppend(chunks, data[offset..next]);
      assert data[..next] == data[..offset] + data[offset..next];
      PieceAdds(chunks, window, data[offset..next], offset + window < |data|);
      chunks := chunks + [data[offset..next]];
      offset := offset + window;
    }
    PiecesStop(chunks, window, offset < |data|);
    assert data[..|data|] == data;
  }

  // ----- sequential windows -----

  /** The bytes a reply brings when `left` are left; anything but bytes is an exception. */
  function Arrived(reply: Reply, chunk: nat, left: nat): nat {
    if reply.Got? then Min(Min(reply.count, chunk), left) else 0
  }

  /** Where sequential reading stops that has `pos` bytes after `k` replies. */
  function Reach(size: nat, chunk: nat, net: nat -> Reply, pos: nat, k: nat): (end: nat)
    requires chunk >= 1 && pos <= size
    ensures pos <= end <= size
    decreases size - pos
  {
    var n := Arrived(net(k), chunk, size - pos);
    if n < chunk then pos + n else Reach(size, chunk, net, pos + n, k + 1)
  }

  /** Where window `k` starts. */
  function Start(chunk: nat, k: nat): nat {
    k * chunk
  }

  lemma StartNext(chunk: nat, k: nat)
    ensures Start(chunk, k + 1) == Start(chunk, k) + chunk
  {
  }

  /** The k-th window comes back full, or as full as the object allows. */
  predicate FullReply(size: nat, chunk: nat, net: nat -> Reply, k: nat) {
    var wanted := Min(chunk, Max(0, size - Start(chunk, k)));
    Arrived(net(k), chunk, wanted) == wanted
  }

  ghost predicate AllFull(size: nat, chunk: nat, net: nat -> Reply, k: nat) {
    forall j: nat :: j >= k ==> FullReply(size, chunk, net, j)
  }

  lemma AllFullFrom(size: nat, chunk: nat, net: nat -> Reply, k: nat)
    ensures AllFull(size, chunk, net, k) <==> FullReply(size, chunk, net, k) && AllFull(size, chunk, net, k + 1)
  {
  }

  /** Nothing is wanted of the windows behind one that crosses the end. */
  lemma NothingBehind(size: nat, chunk: nat, net: nat -> Reply, k: nat)
    requires size < Start(chunk, k + 1)
    ensures AllFull(size, chunk, net, k + 1)
  {
    forall j: nat | j >= k + 1 ensures FullReply(size, chunk, net, j) {
      MulAtMost(k + 1, j, chunk);
    }
  }

  /** Sequential reading gets all of the object exactly when no window before the end comes back short; the
      end is noticed whether or not it falls on a window boundary. */
  lemma {:induction false} ReachesEnd(size: nat, chunk: nat, net: nat -> Reply, k: nat)
    requires chunk >= 1 && Start(chunk, k) <= size
    ensures Reach(size, chunk, net, Start(chunk, k), k) == size <==> AllFull(size, chunk, net, k)
    decreases size - Start(chunk, k)
  {
    StartNext(chunk, k);
    AllFullFrom(size, chunk, net, k);
    if size < Start(chunk, k + 1) {
      NothingBehind(size, chunk, net, k);
    }
    hide Start, AllFull;
    if Start(chunk, k + 1) <= size && FullReply(size, chunk, net, k) {
      ReachesEnd(size, chunk, net, k + 1);
    }
  }

  /** The chunks, if there are any, are the stretch of the object from `from` to `at`. */
  ghost predicate Stretch(content: Bytes, chunks: seq<Bytes>, from: nat, at: nat) {
    if chunks == [] then at == from else from <= at <= |content| && Flatten(chunks) == content[from..at]
  }

  lemma StretchStarts(content: Bytes, from: nat)
    ensures Stretch(content, [], from, from)
  {
  }

  lemma StretchWhole(content: Bytes, chunks: seq<Bytes>, from: nat, end: nat)
    requires Stretch(content, chunks, from, end) && (chunks != [] || end <= |content|)
    ensures from <= end <= |content| && Flatten(chunks) == content[from..end]
  {
  }

  lemma StretchGrows(content: Bytes, chunks: seq<Bytes>, from: nat, a: nat, b: nat)
    requires Stretch(content, chunks, from, a) && from <= a < b <= |content|
    ensures Stretch(content, chunks + [content[a..b]], from, b)
  {
    FlattenAppend(chunks, content[a..b]);
    assert Flatten<bv8>([]) == [];
    hide Flatten;
    assert content[from..b] == content[from..a] + content[a..b];
  }

  lemma ReachStep(size: nat, chunk: nat, net: nat -> Reply, pos: nat, k: nat)
    requires chunk >= 1 && pos <= size
    ensures var n := Arrived(net(k), chunk, size - pos);
            Reach(size, chunk, net, pos, k) == if n < chunk then pos + n else Reach(size, chunk, net, pos + n, k + 1)
  {
  }

  /** Window `k` is asked for: every one before it came back full. */
  ghost predicate Asked(size: nat, chunk: nat, net: nat -> Reply, k: nat) {
    forall j :: 0 <= j < k ==> net(j).Got? && net(j).count >= chunk && Start(chunk, j + 1) <= size
  }

  /** Every window that is asked for is answered with bytes, perhaps none. */
  ghost predicate Answered(size: nat, chunk: nat, net: nat -> Reply) {
    forall k: nat :: Asked(size, chunk, net, k) ==> net(k).Got?
  }

  lemma AskedFirst(size: nat, chunk: nat, net: nat -> Reply)
    ensures Asked(size, chunk, net, 0) && Start(chunk, 0) == 0
  {
    assert Start(chunk, 0) == 0;
    hide Start;
  }

  lemma AskedNext(size: nat, chunk: nat, net: nat -> Reply, k: nat)
    requires Asked(size, chunk, net, k) && net(k).Got? && net(k).count >= chunk && Start(chunk, k + 1) <= size
    ensures Asked(size, chunk, net, k + 1)
  {
  }

  lemma AskedLast(size: nat, chunk: nat, net: nat -> Reply, k: nat)
    requires Asked(size, chunk, net, k)
    ensures !net(k).Got? ==> !Answered(size, chunk, net)
    ensures net(k).Got? && !(net(k).count >= chunk && Start(chunk, k + 1) <= size) ==> Answered(size, chunk, net)
  {
  }

  /** Where the loop stands that has read `k` full windows. */
  ghost predicate AtWindow(content: Bytes, chunk: nat, net: nat -> Reply, chunks: seq<Bytes>, pos: nat, k: nat)
    requires chunk >= 1
  {
    && pos == Start(chunk, k) <= |content|
    && Stretch(content, chunks, 0, pos) && Pieces(chunks, chunk, true)
    && Reach(|content|, chunk, net, pos, k) == Reach(|content|, chunk, net, 0, 0)
    && Asked(|content|, chunk, net, k)
  }

  /** Reading has ended normally with these chunks. */
  ghost predicate ReadOut(content: Bytes, chunk: nat, net: nat -> Reply, chunks: seq<Bytes>)
    requires chunk >= 1
  {
    Answered(|content|, chunk, net) && Pieces(chunks, chunk, false)
    && Flatten(chunks) == content[..Reach(|content|, chunk, net, 0, 0)]
  }

  lemma WindowStarts(content: Bytes, chunk: nat, net: nat -> Reply)
    requires chunk >= 1
    ensures AtWindow(content, chunk, net, [], 0, 0)
  {
    hide Reach, Stretch, Pieces, Asked, Start;
    NoPieces(chunk, true);
    StretchStarts(content, 0);
    AskedFirst(|content|, chunk, net);
  }

  lemma WindowRaises(content: Bytes, chunk: nat, net: nat -> Reply, chunks: seq<Bytes>, pos: nat, k: nat)
    requires chunk >= 1 && AtWindow(content, chunk, net, chunks, pos, k) && !net(k).Got?
    ensures !Answered(|content|, chunk, net) && Pieces(chunks, chunk, false) && Flatten(chunks) <= content
  {
    hide Reach, Stretch, Pieces, Asked, Answered, Flatten;
    AskedLast(|content|, chunk, net, k);
    StretchWhole(content, chunks, 0, pos);
    PiecesStop(chunks, chunk, true);
  }

  lemma WindowEnds(content: Bytes, chunk: nat, net: nat -> Reply, chunks: seq<Bytes>, pos: nat, k: nat)
    requires chunk >= 1 && AtWindow(content, chunk, net, chunks, pos, k) && net(k).Got?
    ensures var n := Arrived(net(k), chunk, |content| - pos);
            && (n == 0 ==> ReadOut(content, chunk, net, chunks))
            && (0 < n < chunk ==> ReadOut(content, chunk, net, chunks + [content[pos..pos + n]]))
  {
    hide Reach, Stretch, Pieces, Asked, Answered, Flatten, Start;
    var n := Arrived(net(k), chunk, |content| - pos);
    AskedLast(|content|, chunk, net, k);
    StartNext(chunk, k);
    ReachStep(|content|, chunk, net, pos, k);
    if n == 0 {
      StretchWhole(content, chunks, 0, pos);
      PiecesStop(chunks, chunk, true);
    } else if n < chunk {
      StretchGrows(content, chunks, 0, pos, pos + n);
      StretchWhole(content, chunks + [content[pos..pos + n]], 0, pos + n);
      PieceAdds(chunks, chunk, content[pos..pos + n], false);
    }
  }

  lemma WindowGoesOn(content: Bytes, chunk: nat, net: nat -> Reply, chunks: seq<Bytes>, pos: nat, k: nat)
    requires chunk >= 1 && AtWindow(content, chunk, net, chunks, pos, k)
    requires Arrived(net(k), chunk, |content| - pos) == chunk
    ensures AtWindow(content, chunk, net, chunks + [content[pos..pos + chunk]], pos + chunk, k + 1)
  {
    hide Reach, Stretch, Pieces, Asked, Flatten, Start;
    StartNext(chunk, k);
    ReachStep(|content|, chunk, net, pos, k);
    AskedNext(|content|, chunk, net, k);
    StretchGrows(content, chunks, 0, pos, pos + chunk);
    PieceAdds(chunks, chunk, content[pos..pos + chunk], true);
  }

  /** The loop of `iter_bytes`: windows one after the other until one comes back short or empty, or raises. */
  method IterWindows(content: Bytes, chunk: nat, net: nat -> Reply) returns (ok: bool, chunks: seq<Bytes>)
    requires chunk >= 1
    ensures Pieces(chunks, chunk, false) && Flatten(chunks) <= content
    ensures ok <==> Answered(|content|, chunk, net)
    ensures ok ==> Flatten(chunks) == content[..Reach(|content|, chunk, net, 0, 0)]
  {
    ok, chunks := false, [];
    var pos, k := 0, 0;
    WindowStarts(content, chunk, net);
    hide AtWindow, Flatten, Reach, Pieces, Answered;
    while true
      invariant 0 <= pos <= |content| && AtWindow(content, chunk, net, chunks, pos, k)
      decreases |content| - pos
    {
      if !net(k).Got? {
        WindowRaises(content, chunk, net, chunks, pos, k);
        return;
      }
      WindowEnds(content, chunk, net, chunks, pos, k);
      var data := content[pos..pos + Arrived(net(k), chunk, |content| - pos)];
      if data == [] {
        break;
      }
      if |data| == chunk {
        WindowGoesOn(content, chunk, net, chunks, pos, k);
      }
      chunks := chunks + [data];
      if |data| < chunk {
        return true, chunks;
      }
      pos, k := pos + |data|, k + 1;
    }
    ok := true;
  }

  /** The size of the pieces that are asked for. */
  function PieceSize(chunk: Option<int>): int {
    if chunk.Some? then chunk.value else 8388608
  }

  /** `iter_bytes`. A chunk size that is not positive is refused; without range reads the object is read at
      once; otherwise reading ends where a reply first comes short, or raises. */
  method IterBytes(src: Source, chunkSize: Option<int>, net: nat -> Reply) returns (ok: bool, chunks: seq<Bytes>)
    ensures Flatten(chunks) <= src.content
    ensures PieceSize(chunkSize) <= 0 ==> !ok && chunks == []
    ensures PieceSize(chunkSize) > 0 ==> Pieces(chunks, PieceSize(chunkSize), false)
    ensures PieceSize(chunkSize) > 0 && !src.supportsRanges ==>
              (ok <==> !net(0).Error?) && (ok ==> Flatten(chunks) == src.content)
    ensures PieceSize(chunkSize) > 0 && src.supportsRanges ==>
              (ok <==> Answered(|src.content|, PieceSize(chunkSize), net))
              && (ok ==> (Flatten(chunks) == src.content <==> AllFull(|src.content|, PieceSize(chunkSize), net, 0)))
  {
    ok, chunks := false, [];
    if chunkSize.Some? && chunkSize.value <= 0 {
      return;
    }
    var chunk: nat := if chunkSize.None? then DEFAULT_CHUNK_SIZE else chunkSize.value;
    if !src.supportsRanges {
      if net(0).Error? {
        return;
      }
      chunks := Windows(src.content, chunk);
      return true, chunks;
    }
    ok, chunks := IterWindows(src.content, chunk, net);
    ReachesEnd(|src.content|, chunk, net, 0);
    assert Start(chunk, 0) == 0 && src.content[..|src.content|] == src.content;
    hide Reach, AllFull, Answered;
  }

  // ----- rounds of parallel ranges -----

  /** Ranges [a, b), each starting where the one before ends, from 0 up to `end`. */
  predicate Tile(ranges: seq<(nat, nat)>, from: nat, end: nat) {
    if ranges == [] then end == from
    else
      var last := ranges[|ranges| - 1];
      last.1 == end && last.0 < last.1 && Tile(ranges[..|ranges| - 1], from, last.0)
  }

  lemma TileNext(ranges: seq<(nat, nat)>, from: nat, mid: nat, end: nat)
    requires Tile(ranges, from, mid) && mid < end
    ensures Tile(ranges + [(mid, end)], from, end)
  {
    assert (ranges + [(mid, end)])[..|ranges|] == ranges;
  }

  lemma {:induction false} TileConcat(a: seq<(nat, nat)>, b: seq<(nat, nat)>, from: nat, mid: nat, end: nat)
    requires Tile(a, from, mid) && Tile(b, mid, end)
    ensures Tile(a + b, from, end)
  {
    if b == [] {
      assert a + b == a;
    } else {
      var n := |b| - 1;
      TileConcat(a, b[..n], from, mid, b[n].0);
      assert (a + b)[..|a| + n] == a + b[..n];
    }
  }

  /** A range [a, b) of the object, if the answer has exactly the length that was asked for. */
  function ReadRange(content: Bytes, a: nat, b: nat, reply: Reply): Option<Bytes> {
    if reply.Got? && a <= b <= |content| && b - a <= reply.count then Some(content[a..b]) else None
  }

  /** The ranges of one round: as many windows as there are streams, or as are left. */
  method StartRound(size: nat, window: nat, streams: nat, from: nat) returns (tasks: seq<(nat, nat)>, offset: nat)
    requires window >= 1 && streams >= 1 && from < size
    ensures 1 <= |tasks| <= streams && from < offset <= size && Tile(tasks, from, offset)
    ensures offset < size ==> |tasks| == streams
    ensures forall i :: 0 <= i < |tasks| ==> tasks[i].1 == Min(size, tasks[i].0 + window)
  {
    tasks, offset := [], from;
    var started := 0;
    while started < streams && offset < size
      invariant 0 <= started <= streams && |tasks| == started && from <= offset <= size
      invariant started > 0 ==> from < offset
      invariant Tile(tasks, from, offset)
      invariant forall i :: 0 <= i < |tasks| ==> tasks[i].1 == Min(size, tasks[i].0 + window)
      decreases streams - started
    {
      var end := Min(size, offset + window);
      TileNext(tasks, from, offset, end);
      tasks := tasks + [(offset, end)];
      offset := end;
      started := started + 1;
    }
  }

  /** Every window from `from` to the end is answered with all its bytes. */
  predicate AllAnswered(content: Bytes, size: nat, window: nat, net: nat -> Reply, from: nat)
    requires window >= 1
    decreases size - from
  {
    from >= size || (
      && ReadRange(content, from, Min(size, from + window), net(from)).Some?
      && AllAnswered(content, size, window, net, Min(size, from + window)))
  }

  /** That is, every window of the object is. */
  lemma {:induction false} EveryWindowAnswered(content: Bytes, size: nat, window: nat, net: nat -> Reply, k: nat)
    requires window >= 1
    ensures AllAnswered(content, size, window, net, Start(window, k)) <==>
              forall j: nat :: j >= k && Start(window, j) < size ==> WindowAnswered(content, size, window, net, j)
    decreases size - Start(window, k)
  {
    StartNext(window, k);
    if Start(window, k) >= size {
      forall j: nat | j >= k ensures Start(window, j) >= size {
        MulAtMost(k, j, window);
      }
    } else {
      EveryWindowAnswered(content, size, window, net, k + 1);
      assert AllAnswered(content, size, window, net, Start(window, k)) <==>
             WindowAnswered(content, size, window, net, k) && AllAnswered(content, size, window, net, Start(window, k + 1));
      hide AllAnswered, WindowAnswered, Start;
    }
  }

  /** The reply to window `j` has all bytes that were asked for, and the object has them. */
  predicate WindowAnswered(content: Bytes, size: nat, window: nat, net: nat -> Reply, j: nat) {
    var a, b := Start(window, j), Min(size, Start(window, j) + window);
    net(a).Got? && a + net(a).count >= b && a <= b <= |content|
  }

  ghost predicate TasksAnswered(content: Bytes, tasks: seq<(nat, nat)>, net: nat -> Reply, n: nat)
    requires n <= |tasks|
  {
    forall i :: 0 <= i < n ==> ReadRange(content, tasks[i].0, tasks[i].1, net(tasks[i].0)).Some?
  }

  /** What a round answers is what is left to be answered before it, without what is left behind it. */
  lemma {:induction false} RoundAnswers(content: Bytes, size: nat, window: nat, net: nat -> Reply,
                                        tasks: seq<(nat, nat)>, from: nat, end: nat, n: nat)
    requires window >= 1 && Tile(tasks, from, end) && n <= |tasks| && end <= size
    requires forall i :: 0 <= i < |tasks| ==> tasks[i].1 == Min(size, tasks[i].0 + window)
    ensures AllAnswered(content, size, window, net, from) <==>
              TasksAnswered(content, tasks, net, n) && AllAnswered(content, size, window, net, EndOf(tasks, from, n))
    decreases n
  {
    if n > 0 {
      RoundAnswers(content, size, window, net, tasks, from, end, n - 1);
      TaskAt(tasks, from, end, n - 1);
    }
  }

  /** Gather the tasks of one round; `net` answers the range that starts at an offset. */
  method GatherRound(content: Bytes, size: nat, window: nat, tasks: seq<(nat, nat)>, net: nat -> Reply, ghost from: nat,
                     ghost end: nat)
    returns (ok: bool, chunks: seq<Bytes>)
    requires tasks != [] && from <= end <= size && Tile(tasks, from, end)
    requires forall i :: 0 <= i < |tasks| ==> tasks[i].1 == Min(size, tasks[i].0 + window)
    ensures ok <==> TasksAnswered(content, tasks, net, |tasks|)
    ensures ok ==> end <= |content| && Pieces(chunks, window, end < size) && Flatten(chunks) == content[from..end]
    ensures !ok ==> chunks == []
  {
    ok, chunks := true, [];
    NoPieces(window, true);
    hide Tile, Flatten, Pieces, ReadRange, Stretch;
    StretchStarts(content, from);
    for i := 0 to |tasks|
      invariant ok && |chunks| == i && Pieces(chunks, window, i == 0 || EndOf(tasks, from, i) < size)
      invariant Stretch(content, chunks, from, EndOf(tasks, from, i))
      invariant TasksAnswered(content, tasks, net, i)
    {
      TaskAt(tasks, from, end, i);
      var (a, b) := tasks[i];
      var data := ReadRange(content, a, b, net(a));
      if data.None? {
        return false, [];
      }
      RangeIsWhole(content, a, b, net(a));
      StretchGrows(content, chunks, from, a, b);
      PieceAdds(chunks, window, data.value, b < size);
      chunks := chunks + [data.value];
    }
    TileEnd(tasks, from, end);
    StretchWhole(content, chunks, from, end);
  }

  /** Where the first `i` ranges end. */
  function EndOf(ranges: seq<(nat, nat)>, from: nat, i: nat): nat
    requires i <= |ranges|
  {
    if i == 0 then from else ranges[i - 1].1
  }

  lemma RangeIsWhole(content: Bytes, a: nat, b: nat, reply: Reply)
    requires a < b && ReadRange(content, a, b, reply).Some?
    ensures b <= |content| && ReadRange(content, a, b, reply).value == content[a..b]
  {
  }

  lemma TileEnd(ranges: seq<(nat, nat)>, from: nat, end: nat)
    requires Tile(ranges, from, end)
    ensures EndOf(ranges, from, |ranges|) == end
  {
  }

  lemma {:induction false} TaskAt(ranges: seq<(nat, nat)>, from: nat, end: nat, i: nat)
    requires Tile(ranges, from, end) && i < |ranges|
    ensures from <= EndOf(ranges, from, i) == ranges[i].0 < ranges[i].1 <= end
    decreases |ranges|
  {
    var n := |ranges| - 1;
    TileGrows(ranges[..n], from, ranges[n].0);
    if i < n {
      TaskAt(ranges[..n], from, ranges[n].0, i);
    } else {
      TileEnd(ranges[..n], from, ranges[n].0);
    }
  }

  lemma {:induction false} TileGrows(ranges: seq<(nat, nat)>, from: nat, end: nat)
    requires Tile(ranges, from, end)
    ensures from <= end
  {
    if ranges != [] {
      var n := |ranges| - 1;
      TileGrows(ranges[..n], from, ranges[n].0);
    }
  }

  // ----- the transfer -----

  /** Small chunks of an object that can be read in ranges are streamed one after the other. */
  predicate Streams(src: Source, l: Limits, chunk: Option<nat>) {
    src.supportsRanges && chunk.Some? && 0 < chunk.value < l.minRangeSize
  }

  /** The width of a range: the least that neither the budget nor the caller finds too small. */
  function Window(l: Limits, chunk: Option<nat>): (window: nat)
    ensures window >= l.minRangeSize && (chunk.Some? ==> window >= chunk.value)
    ensures window > l.minRangeSize ==> chunk == Some(window)
  {
    Max(if chunk.Some? && chunk.value > 0 then chunk.value else l.minRangeSize, l.minRangeSize)
  }

  /** How many ranges one round asks for. */
  function StreamCount(l: Limits, active: nat, size: nat, window: nat): (n: nat)
    requires ValidLimits(l) && window >= 1
    ensures 1 <= n <= l.perFileCap
  {
    Max(1, Min(l.perFileCap, Min(l.floor / Max(1, active), size / window)))
  }

  /** It is the largest number, at least one, that the cap, the file's share of the floor, and the size allow. */
  lemma StreamCountIsShare(l: Limits, active: nat, size: nat, window: nat)
    requires ValidLimits(l) && window >= 1 && active >= 1
    ensures var n := StreamCount(l, active, size, window);
            && (n == 1 || (n * active <= l.floor && n * window <= size))
            && (n == l.perFileCap || (n + 1) * active > l.floor || (n + 1) * window > size)
  {
    var n := StreamCount(l, active, size, window);
    ShareOf(l.floor, active, n);
    ShareOf(size, window, n);
    hide StreamCount;
  }

  /** Each round but the last has its full width. */
  ghost predicate FairRounds(widths: seq<nat>, l: Limits, active: nat -> nat, size: nat, window: nat)
    requires ValidLimits(l) && window >= 1
  {
    forall i :: 0 <= i < |widths| ==>
      var n := StreamCount(l, active(i), size, window);
      1 <= widths[i] <= n && (i < |widths| - 1 ==> widths[i] == n)
  }

  ghost predicate FullRounds(widths: seq<nat>, l: Limits, active: nat -> nat, size: nat, window: nat)
    requires ValidLimits(l) && window >= 1
  {
    forall i :: 0 <= i < |widths| ==> widths[i] == StreamCount(l, active(i), size, window)
  }

  /** The rounds of parallel ranges behind what the probe has read. */
  method Rounds(content: Bytes, size: nat, window: nat, l: Limits, active: nat -> nat, net: nat -> Reply,
                from: nat, probed: seq<(nat, nat)>)
    returns (ok: bool, chunks: seq<Bytes>, ranges: seq<(nat, nat)>, widths: seq<nat>)
    requires ValidLimits(l) && window >= 1 && from <= Min(size, |content|) && Tile(probed, 0, from)
    ensures FairRounds(widths, l, active, size, window)
    ensures Pieces(chunks, window, false) && Flatten(chunks) <= content[from..]
    ensures ok <==> AllAnswered(content, size, window, net, from)
    ensures ok ==> size <= |content| && Flatten(chunks) == content[from..size] && Tile(ranges, 0, size)
    ensures from >= size ==> chunks == []
  {
    ok, chunks, ranges, widths := false, [], probed, [];
    var offset := from;
    NoPieces(window, true);
    NoPieces(window, false);
    hide Pieces, AllAnswered, TasksAnswered, StreamCount;
    while offset < size
      invariant from <= offset <= size && offset <= |content|
      invariant Flatten(chunks) == content[from..offset] && Pieces(chunks, window, offset < size)
      invariant AllAnswered(content, size, window, net, from) <==> AllAnswered(content, size, window, net, offset)
      invariant Tile(ranges, 0, offset)
      invariant FairRounds(widths, l, active, size, window)
      invariant offset < size ==> FullRounds(widths, l, active, size, window)
      invariant from >= size ==> chunks == []
      decreases size - offset
    {
      var streams := StreamCount(l, active(|widths|), size, window);
      var tasks, next := StartRound(size, window, streams, offset);
      widths := widths + [|tasks|];
      PiecesStop(chunks, window, true);
      RoundAnswers(content, size, window, net, tasks, offset, next, |tasks|);
      TileEnd(tasks, offset, next);
      var good, got := GatherRound(content, size, window, tasks, net, offset, next);
      if !good {
        return;
      }
      RoundJoins(content, chunks, got, from, offset, next);
      PiecesJoin(chunks, got, window, next < size);
      TileConcat(ranges, tasks, 0, offset, next);
      chunks, ranges, offset := chunks + got, ranges + tasks, next;
    }
    AtTheEnd(content, size, window, net);
    ok := true;
  }

  lemma AtTheEnd(content: Bytes, size: nat, window: nat, net: nat -> Reply)
    requires window >= 1
    ensures AllAnswered(content, size, window, net, size)
  {
  }

  lemma RoundJoins(content: Bytes, chunks: seq<Bytes>, got: seq<Bytes>, from: nat, mid: nat, end: nat)
    requires from <= mid <= end <= |content|
    requires Flatten(chunks) == content[from..mid] && Flatten(got) == content[mid..end]
    ensures Flatten(chunks + got) == content[from..end]
  {
    FlattenConcat(chunks, got);
    assert content[from..end] == content[from..mid] + content[mid..end];
  }

  /** The probe of a server that may not do ranges: its first range, or the whole object if it does not. */
  method Probe(content: Bytes, size: nat, window: nat, net: nat -> Reply)
    returns (ok: bool, whole: bool, chunks: seq<Bytes>, offset: nat)
    requires size >= 1 && window >= 1
    ensures whole <==> net(0).Whole?
    ensures whole ==> (ok <==> |content| == size) && (ok ==> offset == size && Pieces(chunks, window, false))
    ensures !whole ==> (ok <==> WindowAnswered(content, size, window, net, 0))
    ensures !whole && ok ==> offset == Min(size, window) && Pieces(chunks, window, offset < size)
    ensures ok ==> offset <= Min(size, |content|) && Flatten(chunks) == content[..offset]
    ensures !ok ==> chunks == []
  {
    ok, whole, chunks, offset := false, net(0).Whole?, [], Min(size, window);
    assert Start(window, 0) == 0;
    if whole {
      if |content| == size {
        chunks := Windows(content, window);
        assert content[..size] == content;
        ok, offset := true, size;
      }
      return;
    }
    var first := ReadRange(content, 0, offset, net(0));
    if first.Some? {
      ok, chunks := true, [first.value];
      assert Flatten(chunks) == first.value + Flatten([]);
    }
  }

  lemma JoinParts(content: Bytes, first: seq<Bytes>, rest: seq<Bytes>, offset: nat)
    requires offset <= |content| && Flatten(first) == content[..offset] && Flatten(rest) <= content[offset..]
    ensures Flatten(first + rest) == content[..offset + |Flatten(rest)|]
  {
    FlattenConcat(first, rest);
  }

  /** When a transfer in ranges ends normally: the probe brought an object of the expected size, or every window
      was answered in full and the object is at the end what the stat before it said. */
  ghost predicate RangesArrive(content: Bytes, size: nat, window: nat, probes: bool, net: nat -> Reply, same: bool) {
    if probes && net(0).Whole? then |content| == size
    else
      && |content| == size && same
      && forall j: nat :: Start(window, j) < size ==> WindowAnswered(content, size, window, net, j)
  }

  method RangedTransfer(content: Bytes, size: nat, window: nat, l: Limits, probes: bool, active: nat -> nat,
                        net: nat -> Reply, same: bool)
    returns (ok: bool, chunks: seq<Bytes>, ranges: seq<(nat, nat)>, widths: seq<nat>)
    requires ValidLimits(l) && size >= 1 && window >= 1
    ensures Flatten(chunks) <= content && Pieces(chunks, window, false) && FairRounds(widths, l, active, size, window)
    ensures ok <==> RangesArrive(content, size, window, probes, net, same)
    ensures ok ==> Flatten(chunks) == content && (ranges != [] ==> Tile(ranges, 0, |content|))
  {
    ok, chunks, ranges, widths := false, [], [], [];
    var offset := 0;
    NoPieces(window, true);
    NoPieces(window, false);
    WindowsArrive(content, size, window, net);
    if probes {
      var probed, whole;
      probed, whole, chunks, offset := Probe(content, size, window, net);
      if !probed || whole {
        return probed, chunks, [], [];
      }
      TileNext([], 0, 0, offset);
      ranges := [(0, offset)];
    }
    hide Tile, Pieces, AllAnswered, FairRounds, WindowAnswered;
    var good, rest, all, most := Rounds(content, size, window, l, active, net, offset, ranges);
    JoinParts(content, chunks, rest, offset);
    if offset < size {
      PiecesJoin(chunks, rest, window, false);
    } else {
      assert chunks + rest == chunks;
      PiecesStop(chunks, window, false);
    }
    chunks, ranges, widths := chunks + rest, all, most;
    ok := good && same && |content| == size;
    assert content[..|content|] == content;
  }

  lemma WindowsArrive(content: Bytes, size: nat, window: nat, net: nat -> Reply)
    requires size >= 1 && window >= 1
    ensures AllAnswered(content, size, window, net, 0) <==>
              forall j: nat :: Start(window, j) < size ==> WindowAnswered(content, size, window, net, j)
    ensures AllAnswered(content, size, window, net, 0) <==>
              WindowAnswered(content, size, window, net, 0) && AllAnswered(content, size, window, net, Min(size, window))
  {
    EveryWindowAnswered(content, size, window, net, 0);
    assert Start(window, 0) == 0;
  }

  /** Objects that are read at once: those whose size is not known or is less than two ranges, when pieces of no
      size are asked for, or when nobody asks for a size and the file's share is less than two streams. */
  predicate ReadsWhole(src: Source, l: Limits, chunk: Option<nat>, active: nat) {
    !Streams(src, l, chunk) && (
      || !src.supportsRanges || src.statSize.None? || src.statSize.value < 2 * l.minRangeSize
      || chunk == Some(0)
      || (chunk.None? && (l.perFileCap < 2 || l.floor < 2 * Max(1, active))))
  }

  /** The size of the pieces that are handed out. */
  function Handed(src: Source, l: Limits, chunk: Option<nat>, active: nat): nat {
    if chunk.Some? && chunk.value > 0 && (Streams(src, l, chunk) || ReadsWhole(src, l, chunk, active)) then chunk.value
    else if ReadsWhole(src, l, chunk, active) then 8388608
    else Window(l, chunk)
  }

  /** Each path's own condition for a normal end. */
  ghost predicate TransferArrives(src: Source, l: Limits, chunk: Option<nat>, active: nat, net: nat -> Reply, same: bool) {
    if Streams(src, l, chunk) then Answered(|src.content|, chunk.value, net)
    else if ReadsWhole(src, l, chunk, active) then !net(0).Error?
    else RangesArrive(src.content, src.statSize.value, Window(l, chunk), src.probes, net, same)
  }

  /** `iter_transfer_chunks`, for an object that stays as it is while it is read, though the stat before may
      have seen another one. `active` is the number of active files as it changes, `net` answers requests by
      window or by offset, and `same` says that the stat after the transfer answered and, but for the size,
      agrees with the one before. */
  method TransferChunks(src: Source, l: Limits, chunk: Option<nat>, active: nat -> nat, net: nat -> Reply, same: bool)
    returns (ok: bool, chunks: seq<Bytes>, ranges: seq<(nat, nat)>, widths: seq<nat>)
    requires ValidLimits(l)
    ensures Flatten(chunks) <= src.content && Pieces(chunks, Handed(src, l, chunk, active(0)), false)
    ensures ok <==> TransferArrives(src, l, chunk, active(0), net, same)
    ensures ok && !Streams(src, l, chunk) ==> Flatten(chunks) == src.content
    ensures ok && Streams(src, l, chunk) ==>
              (Flatten(chunks) == src.content <==> AllFull(|src.content|, chunk.value, net, 0))
    ensures ok && ranges != [] ==> Tile(ranges, 0, |src.content|)
    ensures widths == [] || (src.statSize.Some? && FairRounds(widths, l, active, src.statSize.value, Window(l, chunk)))
  {
    ok, chunks, ranges, widths := false, [], [], [];
    NoPieces(Handed(src, l, chunk, active(0)), false);
    hide Pieces, Tile, AllFull, Answered, RangesArrive, FairRounds;
    if src.supportsRanges && chunk.Some? && chunk.value > 0 && chunk.value < l.minRangeSize {
      ok, chunks := IterBytes(src, Some(chunk.value), net);
      return;
    }
    var content := src.content;
    var stat := if src.supportsRanges then src.statSize else None;
    var spare := Min(l.perFileCap, l.floor / Max(1, active(0)));
    LessThanTwo(l.floor, Max(1, active(0)));
    if stat.None? || stat.value < 2 * l.minRangeSize || chunk == Some(0) || (chunk.None? && spare < 2) {
      if net(0).Error? {
        return;
      }
      chunks := Windows(content, if chunk.Some? && chunk.value > 0 then chunk.value else DEFAULT_CHUNK_SIZE);
      ok := true;
      return;
    }
    ok, chunks, ranges, widths := RangedTransfer(content, stat.value, Window(l, chunk), l, src.probes, active, net, same);
  }

  lemma LessThanTwo(floor: nat, a: nat)
    requires a >= 1
    ensures floor / a < 2 <==> floor < 2 * a
  {
  }
}
