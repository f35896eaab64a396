/** A copy-on-write view of an image file (src/cli/vhdx/overlay.rs): written pages in
    memory over bytes that never change. */
module Overlays {
  import opened Bytes
  import opened Devices
  import opened LogFormat
  import opened LogReplay
  import opened Headers
  import opened Open

  const PAGE: nat := 4096

  /** The base, the length the view has grown to, and every page written, whole. */
  datatype View = View(base: Buf, len: nat, pages: map<nat, Buf>)

  /** `n` bytes of the base at `off`, zeros past its end. */
  function BaseBytes(base: Buf, off: nat, n: nat): (r: Buf)
    ensures |r| == n && forall i :: 0 <= i < n ==> r[i] == BaseByte(base, off + i)
  {
    seq<byte>(n, i requires 0 <= i => BaseByte(base, off + i))
  }

  function BaseByte(base: Buf, i: nat): byte { if i < |base| then base[i] else 0 }

  /** Every page is whole, and zero past the length: what growth exposes. */
  ghost predicate Sound(v: View) {
    |v.base| <= v.len
    && (forall k :: k in v.pages ==> |v.pages[k]| == PAGE)
    && (forall k, j :: k in v.pages && 0 <= j < PAGE && k * PAGE + j >= v.len ==> v.pages[k][j] == 0)
  }

  function ViewByte(v: View, i: nat): byte {
    if i / PAGE in v.pages && |v.pages[i / PAGE]| == PAGE then v.pages[i / PAGE][i % PAGE] else BaseByte(v.base, i)
  }

  /** The bytes the view stands for. */
  function Contents(v: View): (r: Buf)
    ensures |r| == v.len && forall i :: 0 <= i < v.len ==> r[i] == ViewByte(v, i)
  {
    seq(v.len, i requires 0 <= i => ViewByte(v, i))
  }

  // ---- Pieces ----

  datatype Piece = Piece(index: nat, inPage: nat, pos: nat, n: nat)

  function PieceAt(at: nat, end: nat, offset: nat): (p: Piece)
    requires offset <= at < end
    ensures 0 < p.n <= end - at && p.inPage + p.n <= PAGE && p.index * PAGE + p.inPage == at && p.pos == at - offset
  {
    Piece(at / PAGE, at % PAGE, at - offset, Min(PAGE - at % PAGE, end - at))
  }

  function PiecesFrom(at: nat, end: nat, offset: nat): seq<Piece>
    requires offset <= at
    decreases end - at
  {
    if at >= end then []
    else
      var p := PieceAt(at, end, offset);
      [p] + PiecesFrom(at + p.n, end, offset)
  }

  method Pieces(offset: nat, len: nat) returns (ps: seq<Piece>)
    ensures ps == PiecesFrom(offset, offset + len, offset)
  {
    ps := [];
    var at, end := offset, offset + len;
    while at < end
      invariant offset <= at && ps + PiecesFrom(at, end, offset) == PiecesFrom(offset, end, offset)
      decreases end - at
    {
      var p := PieceAt(at, end, offset);
      assert ps + ([p] + PiecesFrom(at + p.n, end, offset)) == (ps + [p]) + PiecesFrom(at + p.n, end, offset);
      ps := ps + [p];
      at := at + p.n;
    }
  }

  // ---- Writing ----

  /** The page as it stands: its own copy, or one made from the base. */
  function PageOf(v: View, index: nat): Buf {
    if index in v.pages then v.pages[index] else BaseBytes(v.base, index * PAGE, PAGE)
  }

  function PutPiece(v: View, p: Piece, bytes: Buf): View
    requires Sound(v) && p.inPage + |bytes| <= PAGE
  {
    v.(pages := v.pages[p.index := Splice(PageOf(v, p.index), p.inPage, bytes)])
  }

  lemma PutPieceByte(v: View, p: Piece, bytes: Buf, i: nat)
    requires Sound(v) && p.inPage + |bytes| <= PAGE
    ensures var at := p.index * PAGE + p.inPage;
      ViewByte(PutPiece(v, p, bytes), i) == if at <= i < at + |bytes| then bytes[i - at] else ViewByte(v, i)
  {
    hide Splice;
    var page := PageOf(v, p.index);
    if i / PAGE == p.index {
      SpliceAt(page, p.inPage, bytes, i % PAGE);
    }
  }

  lemma PutPieceSound(v: View, p: Piece, bytes: Buf)
    requires Sound(v) && p.inPage + |bytes| <= PAGE && p.index * PAGE + p.inPage + |bytes| <= v.len
    ensures Sound(PutPiece(v, p, bytes))
  {
    hide Splice;
    var page, u := PageOf(v, p.index), PutPiece(v, p, bytes);
    forall j | 0 <= j < PAGE && p.index * PAGE + j >= v.len
      ensures u.pages[p.index][j] == 0
    {
      SpliceAt(page, p.inPage, bytes, j);
    }
  }

  ghost predicate PiecesFit(ps: seq<Piece>, len: nat, n: nat) {
    forall i :: 0 <= i < |ps| ==>
      ps[i].inPage + ps[i].n <= PAGE && ps[i].index * PAGE + ps[i].inPage + ps[i].n <= len && ps[i].pos + ps[i].n <= n
  }

  lemma {:induction false} PiecesFromFit(at: nat, end: nat, offset: nat, len: nat, n: nat)
    requires offset <= at && end <= len && end <= offset + n
    ensures PiecesFit(PiecesFrom(at, end, offset), len, n)
    decreases end - at
  {
    if at < end {
      var p := PieceAt(at, end, offset);
      PiecesFromFit(at + p.n, end, offset, len, n);
    }
  }

  function PutPieces(v: View, ps: seq<Piece>, buf: Buf): (u: View)
    requires Sound(v) && PiecesFit(ps, v.len, |buf|)
    ensures Sound(u) && u.base == v.base && u.len == v.len
    decreases |ps|
  {
    if ps == [] then v
    else
      var bytes := buf[ps[0].pos..ps[0].pos + ps[0].n];
      PutPieceSound(v, ps[0], bytes);
      PutPieces(PutPiece(v, ps[0], bytes), ps[1..], buf)
  }

  lemma {:induction false} PutPiecesByte(v: View, at: nat, end: nat, offset: nat, buf: Buf, i: nat)
    requires Sound(v) && offset <= at <= end <= v.len && end <= offset + |buf|
    requires PiecesFit(PiecesFrom(at, end, offset), v.len, |buf|)
    ensures ViewByte(PutPieces(v, PiecesFrom(at, end, offset), buf), i) == if at <= i < end then buf[i - offset]
      else ViewByte(v, i)
    decreases end - at
  {
    hide ViewByte, Sound, PutPiece, PieceAt;
    if at < end {
      hide PiecesFrom, PutPieces, PiecesFit;
      var p := PieceAt(at, end, offset);
      var bytes := buf[p.pos..p.pos + p.n];
      PutPieceSound(v, p, bytes);
      PutPieceByte(v, p, bytes, i);
      PiecesFromFit(at + p.n, end, offset, v.len, |buf|);
      SameLength(v, p, bytes);
      PutFirst(v, at, end, offset, buf);
      PutPiecesByte(PutPiece(v, p, bytes), at + p.n, end, offset, buf, i);
    }
  }

  lemma PutFirst(v: View, at: nat, end: nat, offset: nat, buf: Buf)
    requires Sound(v) && offset <= at < end <= v.len && end <= offset + |buf|
    requires PiecesFit(PiecesFrom(at, end, offset), v.len, |buf|)
    ensures var p := PieceAt(at, end, offset);
      var bytes, rest := buf[p.pos..p.pos + p.n], PiecesFrom(at + p.n, end, offset);
      Sound(PutPiece(v, p, bytes)) && PiecesFit(rest, v.len, |buf|)
      && PutPieces(v, PiecesFrom(at, end, offset), buf) == PutPieces(PutPiece(v, p, bytes), rest, buf)
  {
    hide Sound, PutPiece, PieceAt;
    var p, ps := PieceAt(at, end, offset), PiecesFrom(at, end, offset);
    var rest := PiecesFrom(at + p.n, end, offset);
    assert ps == [p] + rest && ps[0] == p && ps[1..] == rest;
    PutPieceSound(v, p, buf[p.pos..p.pos + p.n]);
    SameLength(v, p, buf[p.pos..p.pos + p.n]);
    PiecesFromFit(at + p.n, end, offset, v.len, |buf|);
  }

  lemma SameLength(v: View, p: Piece, bytes: Buf)
    requires Sound(v) && p.inPage + |bytes| <= PAGE
    ensures PutPiece(v, p, bytes).len == v.len
  {
  }

  // ---- The view as a device ----

  /** A write inside the length; anything else is refused. */
  function ViewWrite(v: View, offset: nat, buf: Buf): View
    requires Sound(v)
  {
    if offset + |buf| > v.len then v
    else
      PiecesFromFit(offset, offset + |buf|, offset, v.len, |buf|);
      PutPieces(v, PiecesFrom(offset, offset + |buf|, offset), buf)
  }

  /** Growth only. */
  function ViewGrow(v: View, n: nat): View { if n < v.len then v else v.(len := n) }

  /** A write of the view is the write of its bytes. */
  lemma WriteIsSplice(v: View, offset: nat, buf: Buf)
    requires Sound(v)
    ensures Sound(ViewWrite(v, offset, buf)) && ViewWrite(v, offset, buf).base == v.base
    ensures Contents(ViewWrite(v, offset, buf)) == RunOp(Contents(v), Write(offset, buf))
  {
    hide Sound, PiecesFrom, PutPieces, ViewByte, Splice, PiecesFit;
    if offset + |buf| <= v.len {
      PiecesFromFit(offset, offset + |buf|, offset, v.len, |buf|);
      var u := ViewWrite(v, offset, buf);
      var a, b := Contents(u), Splice(Contents(v), offset, buf);
      forall i | 0 <= i < v.len
        ensures a[i] == b[i]
      {
        PutPiecesByte(v, offset, offset + |buf|, offset, buf, i);
        SpliceAt(Contents(v), offset, buf, i);
      }
    }
  }

  /** What growth exposes reads as zeros. */
  lemma GrowthIsZeros(v: View, n: nat)
    requires Sound(v)
    ensures Sound(ViewGrow(v, n)) && ViewGrow(v, n).base == v.base
    ensures Contents(ViewGrow(v, n)) == if n < v.len then Contents(v) else RunOp(Contents(v), SetLen(n))
  {
    if n >= v.len {
      var u := ViewGrow(v, n);
      forall i | v.len <= i < n
        ensures ViewByte(u, i) == 0
      {
        assert i == i / PAGE * PAGE + i % PAGE;
      }
      assert forall i | 0 <= i < v.len :: ViewByte(u, i) == ViewByte(v, i);
      assert Contents(u) == Contents(v) + Zeros(n - v.len);
    }
  }

  lemma FreshView(base: Buf)
    ensures Sound(View(base, |base|, map[])) && Contents(View(base, |base|, map[])) == base
  {
  }

  function ViewOp(v: View, op: DevOp): View
    requires Sound(v)
  {
    match op
    case Write(off, b) => ViewWrite(v, off, b)
    case SetLen(n) => ViewGrow(v, n)
    case Flush => v
  }

  lemma ViewOpSound(v: View, op: DevOp)
    requires Sound(v)
    ensures Sound(ViewOp(v, op)) && ViewOp(v, op).base == v.base
    ensures Contents(ViewOp(v, op)) == if op.SetLen? && op.n < v.len then Contents(v) else RunOp(Contents(v), op)
  {
    hide Sound, ViewWrite, ViewGrow, Contents;
    match op
    case Write(off, b) => WriteIsSplice(v, off, b);
    case SetLen(n) => GrowthIsZeros(v, n);
    case Flush =>
  }

  function ViewOps(v: View, ops: seq<DevOp>): (u: View)
    requires Sound(v)
    ensures Sound(u)
    decreases |ops|
  {
    if ops == [] then v
    else
      ViewOpSound(v, ops[0]);
      ViewOps(ViewOp(v, ops[0]), ops[1..])
  }

  /** No operation of the list makes a device of `len` bytes shorter. */
  predicate GrowOnly(len: nat, ops: seq<DevOp>)
    decreases |ops|
  {
    ops == []
    || match ops[0]
       case SetLen(n) => n >= len && GrowOnly(n, ops[1..])
       case _ => GrowOnly(len, ops[1..])
  }

  /** Over any run of writes and growths the view is the plain device it stands for,
      and the base is never changed. */
  lemma {:induction false} ViewIsDevice(v: View, ops: seq<DevOp>)
    requires Sound(v) && GrowOnly(v.len, ops)
    ensures Contents(ViewOps(v, ops)) == RunOps(Contents(v), ops) && ViewOps(v, ops).base == v.base
    decreases |ops|
  {
    hide Sound, ViewOp, Contents, RunOp;
    if ops != [] {
      ViewOpSound(v, ops[0]);
      ViewLength(v, ops[0]);
      ViewIsDevice(ViewOp(v, ops[0]), ops[1..]);
    }
  }

  lemma ViewLength(v: View, op: DevOp)
    requires Sound(v)
    ensures ViewOp(v, op).len == if op.SetLen? && op.n >= v.len then op.n else v.len
  {
    hide PutPieces, PiecesFrom;
    if op.Write? && op.off + |op.bytes| <= v.len {
      PiecesFromFit(op.off, op.off + |op.bytes|, op.off, v.len, |op.bytes|);
    }
  }

  // ---- The overlay ----

  class Overlay {
    const base: Buf
    var len: nat
    var pages: map<nat, Buf>
    var written: bool

    ghost function AsView(): View
      reads this
    {
      View(base, len, pages)
    }

    ghost predicate Valid()
      reads this
    {
      Sound(AsView())
    }

    constructor (base: Buf)
      ensures Valid() && this.base == base && Contents(AsView()) == base && !written
    {
      this.base, len, pages, written := base, |base|, map[], false;
      new;
      FreshView(base);
    }

    /** Fills `buf[pos..pos + n]` from the base. */
    method ReadBase(offset: nat, buf: array<byte>, pos: nat, n: nat)
      requires pos + n <= buf.Length
      modifies buf
      ensures buf[..] == Splice(old(buf[..]), pos, BaseBytes(base, offset, n))
    {
      var have := Min(if |base| >= offset then |base| - offset else 0, n);
      forall i | 0 <= i < have {
        buf[pos + i] := base[offset + i];
      }
      forall i | have <= i < n {
        buf[pos + i] := 0;
      }
    }

    /** The page as it stands, copied from the base if it has not been written. */
    method LoadPage(index: nat) returns (page: Buf)
      ensures page == PageOf(AsView(), index)
    {
      if index in pages {
        return pages[index];
      }
      var copy := new byte[PAGE](_ => 0);
      SpliceWhole(copy[..], BaseBytes(base, index * PAGE, PAGE));
      ReadBase(index * PAGE, copy, 0, PAGE);
      return copy[..];
    }

    /** One piece of a read. */
    method FillPiece(p: Piece, buf: array<byte>)
      requires Valid() && p.inPage + p.n <= PAGE && p.pos + p.n <= buf.Length && p.index * PAGE + p.inPage + p.n <= len
      modifies buf
      ensures var at := p.index * PAGE + p.inPage;
        buf[..] == Splice(old(buf[..]), p.pos, Contents(AsView())[at..at + p.n])
    {
      ghost var at := p.index * PAGE + p.inPage;
      PieceContents(AsView(), p);
      hide Contents, Splice, BaseBytes;
      if p.index in pages {
        var page := pages[p.index];
        ghost var before := buf[..];
        forall i | 0 <= i < p.n {
          buf[p.pos + i] := page[p.inPage + i];
        }
        SpliceIs(before, p.pos, page[p.inPage..p.inPage + p.n], buf[..]);
      } else {
        ReadBase(p.index * PAGE + p.inPage, buf, p.pos, p.n);
      }
    }

    /** Reads inside the length fill the buffer with the view's bytes; others leave it
        alone. */
    method ReadAt(offset: nat, buf: array<byte>) returns (r: Result<()>)
      requires Valid()
      modifies buf
      ensures r == if offset + buf.Length <= len then Ok(()) else Err(OutOfBounds)
      ensures buf[..] == if r.Ok? then Contents(AsView())[offset..offset + buf.Length] else old(buf[..])
    {
      hide Contents, Sound, Splice, PieceAt;
      if offset + buf.Length > len {
        return Err(OutOfBounds);
      }
      var ps := Pieces(offset, buf.Length);
      var i, at, end := 0, offset, offset + buf.Length;
      while i < |ps|
        invariant 0 <= i <= |ps| && offset <= at <= end && ps[i..] == PiecesFrom(at, end, offset)
        invariant buf[..at - offset] == Contents(AsView())[offset..at]
      {
        var p := ps[i];
        NextPiece(ps, i, at, end, offset);
        ghost var before := buf[..];
        FillPiece(p, buf);
        FilledFurther(before, offset, Contents(AsView()), p.pos, p.n);
        i, at := i + 1, at + p.n;
      }
      assert PiecesFrom(at, end, offset) == [];
      assert at == end;
      assert buf[..] == buf[..end - offset];
      return Ok(());
    }

    /** Writes inside the length change the view's bytes and nothing else. */
    method WriteAt(offset: nat, buf: Buf) returns (r: Result<()>)
      requires Valid()
      modifies this
      ensures Valid() && AsView() == ViewWrite(old(AsView()), offset, buf)
      ensures Contents(AsView()) == RunOp(old(Contents(AsView())), Write(offset, buf))
      ensures r == if offset + |buf| <= old(len) then Ok(()) else Err(OutOfBounds)
      ensures written == (old(written) || r.Ok?)
    {
      hide Contents, Sound, RunOp, PutPieces, PiecesFrom, PiecesFit;
      WriteIsSplice(AsView(), offset, buf);
      if offset + |buf| > len {
        return Err(OutOfBounds);
      }
      PiecesFromFit(offset, offset + |buf|, offset, len, |buf|);
      var ps := Pieces(offset, |buf|);
      PutAll(ps, buf);
      written := true;
      return Ok(());
    }

    method PutAll(ps: seq<Piece>, buf: Buf)
      requires Valid() && PiecesFit(ps, len, |buf|)
      modifies this`pages
      ensures AsView() == PutPieces(old(AsView()), ps, buf)
    {
      hide Sound, PutPiece;
      ghost var v := AsView();
      var i := 0;
      assert ps[0..] == ps;
      while i < |ps|
        invariant 0 <= i <= |ps| && Valid() && PiecesFit(ps[i..], len, |buf|)
        invariant PutPieces(AsView(), ps[i..], buf) == PutPieces(v, ps, buf)
      {
        assert ps[i..][0] == ps[i] && ps[i..][1..] == ps[i + 1..];
        PutPieceSound(AsView(), ps[i], buf[ps[i].pos..ps[i].pos + ps[i].n]);
        PutOne(ps[i], buf[ps[i].pos..ps[i].pos + ps[i].n]);
        i := i + 1;
      }
    }

    method PutOne(p: Piece, bytes: Buf)
      requires Valid() && p.inPage + |bytes| <= PAGE
      modifies this`pages
      ensures AsView() == PutPiece(old(AsView()), p, bytes)
    {
      var page := LoadPage(p.index);
      pages := pages[p.index := Splice(page, p.inPage, bytes)];
    }

    /** Growth only; a shrink is refused. */
    method SetLen(n: nat) returns (r: Result<()>)
      requires Valid()
      modifies this
      ensures Valid() && AsView() == ViewGrow(old(AsView()), n)
      ensures r == if n < old(len) then Err(Io) else Ok(())
      ensures Contents(AsView()) == if r.Ok? then RunOp(old(Contents(AsView())), DevOp.SetLen(n))
        else old(Contents(AsView()))
      ensures written == (old(written) || r.Ok?)
    {
      GrowthIsZeros(AsView(), n);
      hide Contents, Sound, RunOp;
      if n < len {
        return Err(Io);
      }
      len := n;
      written := true;
      return Ok(());
    }
  }

  /** The view's bytes under a piece: its page's, or the base's. */
  lemma PieceContents(v: View, p: Piece)
    requires Sound(v) && p.inPage + p.n <= PAGE && p.index * PAGE + p.inPage + p.n <= v.len
    ensures var at := p.index * PAGE + p.inPage;
      Contents(v)[at..at + p.n]
      == if p.index in v.pages then v.pages[p.index][p.inPage..p.inPage + p.n] else BaseBytes(v.base, at, p.n)
  {
    var at := p.index * PAGE + p.inPage;
    var c := Contents(v)[at..at + p.n];
    forall i | 0 <= i < p.n
      ensures c[i] == if p.index in v.pages then v.pages[p.index][p.inPage + i] else BaseByte(v.base, at + i)
    {
      InPage(p.index, p.inPage + i);
      assert c[i] == ViewByte(v, at + i);
    }
  }

  lemma InPage(index: nat, j: nat)
    requires j < PAGE
    ensures (index * PAGE + j) / PAGE == index && (index * PAGE + j) % PAGE == j
  {
  }

  lemma NextPiece(ps: seq<Piece>, i: nat, at: nat, end: nat, offset: nat)
    requires i < |ps| && offset <= at <= end && ps[i..] == PiecesFrom(at, end, offset)
    ensures at < end && ps[i] == PieceAt(at, end, offset) && ps[i + 1..] == PiecesFrom(at + ps[i].n, end, offset)
  {
    assert ps[i..][0] == ps[i] && ps[i + 1..] == ps[i..][1..];
  }

  lemma SpliceIs(d: Buf, off: nat, x: Buf, e: Buf)
    requires off + |x| <= |d| == |e|
    requires forall i :: 0 <= i < |d| ==> e[i] == if off <= i < off + |x| then x[i - off] else d[i]
    ensures e == Splice(d, off, x)
  {
  }

  /** A piece more of a buffer that is filled from the front. */
  lemma FilledFurther(before: Buf, offset: nat, c: Buf, pos: nat, n: nat)
    requires pos + n <= |before| && offset + pos + n <= |c| && before[..pos] == c[offset..offset + pos]
    ensures Splice(before, pos, c[offset + pos..offset + pos + n])[..pos + n] == c[offset..offset + pos + n]
  {
  }

  lemma SpliceWhole(d: Buf, b: Buf)
    requires |d| == |b|
    ensures Splice(d, 0, b) == b
  {
  }

  // ---- Opening through the overlay ----

  ghost predicate NeverResizes(ops: seq<DevOp>) {
    forall i :: 0 <= i < |ops| ==> !ops[i].SetLen?
  }

  lemma {:induction false} NeverResizesGrows(len: nat, ops: seq<DevOp>)
    requires NeverResizes(ops)
    ensures GrowOnly(len, ops)
    decreases |ops|
  {
    if ops != [] {
      assert !ops[0].SetLen?;
      NeverResizesGrows(len, ops[1..]);
    }
  }

  lemma ChainNeverResizes(chain: seq<LogEntry>, extent: u64)
    requires AllFit(Flatten(chain), extent)
    ensures NeverResizes(ChainOps(chain))
  {
    hide AllFit, Flatten, ChainOps;
    ChainInside(chain, extent);
  }

  lemma ClearNeverResizes(h: Header, slot: Slot)
    ensures NeverResizes(ClearOps(h, slot))
  {
    hide EncodedHeader, ZeroOps;
    ZeroInside(h.logOffset, h.logLength, h.logOffset + h.logLength);
  }

  lemma ReplayGrows(size: u64, capacity: nat, chain: seq<LogEntry>, more: seq<DevOp>)
    requires NeverResizes(more)
    ensures GrowOnly(size, Replay(size, capacity, chain).ops + more)
  {
    hide AllFit, AllowedExtent, ChainOps, Flatten;
    var extent := AllowedExtent(size, chain);
    if Replay(size, capacity, chain).result.Ok? {
      ChainNeverResizes(chain, extent);
      var rest := ChainOps(chain) + more;
      NeverResizesGrows(extent, rest);
      NeverResizesGrows(size, rest);
      if extent > size {
        assert (([SetLen(extent)] + ChainOps(chain)) + more)[1..] == rest;
      } else {
        assert ([] + ChainOps(chain)) + more == rest;
      }
    } else {
      NeverResizesGrows(size, more);
      assert [] + more == more;
    }
  }

  lemma OpenGrows(d: Buf, capacity: nat, w: bool, replayCapable: bool, dec: Decoders)
    requires |d| < TWO64
    ensures GrowOnly(|d|, OpenRun(d, capacity, w, replayCapable, dec).ops)
  {
    hide Gates, Replay, Settle, Load, ClearOps, RunOps;
    match Gates(d, replayCapable, dec)
    case Err(_) =>
    case Ok(g) =>
      if g.chain != [] {
        ClearNeverResizes(g.header, g.slot);
        ReplayGrows(|d|, capacity, g.chain, ClearOps(g.header, g.slot));
        ReplayGrows(|d|, capacity, g.chain, []);
      }
  }

  /** Opening through an overlay shows the image that opening in place would leave, and
      leaves the file as it is; for an image that opens, something is written exactly
      when its log had a chain to replay. */
  lemma OpenThroughOverlay(base: Buf, capacity: nat, w: bool, dec: Decoders)
    requires |base| < TWO64
    ensures var o, v := OpenRun(base, capacity, w, true, dec), View(base, |base|, map[]);
      Sound(v) && Contents(ViewOps(v, o.ops)) == RunOps(base, o.ops) && ViewOps(v, o.ops).base == base
      && (o.result.Ok? ==>
            Gates(base, true, dec).Ok?
              && ((exists i :: 0 <= i < |o.ops| && !o.ops[i].Flush?) <==> Gates(base, true, dec).value.chain != []))
  {
    hide Gates, Replay, Settle, Load, RunOps, GrowOnly, Contents, ViewOps, EncodedHeader, ZeroOps;
    var o, v := OpenRun(base, capacity, w, true, dec), View(base, |base|, map[]);
    FreshView(base);
    OpenGrows(base, capacity, w, true, dec);
    ViewIsDevice(v, o.ops);
    if o.result.Ok? && Gates(base, true, dec).value.chain != [] {
      assert !o.ops[|o.ops| - 2].Flush?;
    }
  }
}
