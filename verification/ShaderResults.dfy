/** Compile results: what one owns, how it is built and how it is freed.

    A result is treated as a list of pieces, in the order in which they are freed.  A piece is a raw
    cell, an array of variables or an interface block.  `Built(h0, h, ps)` says that what the heap
    `h` holds beyond `h0` is exactly the pieces `ps`: building adds pieces at the end of the list, and
    freeing takes them off its front, until nothing is left and the heap is `h0` again.

    Every lemma below is about one such move, so that the methods that build and free results can be
    followed one call at a time. */
module ShaderResults {
  import opened ShaderHeap
  import opened ShaderVariables

  datatype Piece =
    | Raw(p: Ptr, cell: Cell)
    | Array(p: Ptr, ts: seq<Tree>)
    | Block(b: InterfaceBlock, bt: BlockTree)

  predicate RepPiece(h: Heap, piece: Piece) {
    match piece
    case Raw(p, cell) => p != 0 && p in h && h[p] == cell
    case Array(p, ts) => RepArray(h, p, ts)
    case Block(b, bt) => RepBlock(h, b, bt)
  }

  function OwnPiece(h: Heap, piece: Piece): multiset<Ptr>
    requires RepPiece(h, piece)
  {
    match piece
    case Raw(p, _) => One(p)
    case Array(p, ts) => OwnArray(h, p, ts)
    case Block(b, bt) => OwnBlock(h, b, bt)
  }

  datatype Pieces = Nil | Cons(head: Piece, tail: Pieces)

  function Append(ps: Pieces, qs: Pieces): Pieces {
    match ps
    case Nil => qs
    case Cons(head, tail) => Cons(head, Append(tail, qs))
  }

  predicate RepPieces(h: Heap, ps: Pieces) {
    match ps
    case Nil => true
    case Cons(head, tail) => RepPiece(h, head) && RepPieces(h, tail)
  }

  function OwnPieces(h: Heap, ps: Pieces): multiset<Ptr>
    requires RepPieces(h, ps)
  {
    match ps
    case Nil => multiset{}
    case Cons(head, tail) => OwnPiece(h, head) + OwnPieces(h, tail)
  }

  lemma FramePiece(h: Heap, h': Heap, piece: Piece)
    requires RepPiece(h, piece) && Same(h, h', OwnPiece(h, piece))
    ensures RepPiece(h', piece) && OwnPiece(h', piece) == OwnPiece(h, piece)
  {
    match piece
    case Raw(p, _) => assert p in OwnPiece(h, piece);
    case Array(p, ts) => FrameArray(h, h', p, ts);
    case Block(b, bt) => FrameBlock(h, h', b, bt);
  }

  lemma PieceIsAllocated(h: Heap, piece: Piece)
    requires RepPiece(h, piece)
    ensures forall q :: q in OwnPiece(h, piece) ==> q != 0 && q in h
  {
    match piece
    case Raw(p, _) =>
    case Array(p, ts) => ArrayIsAllocated(h, p, ts);
    case Block(b, bt) => ArrayIsAllocated(h, b.pFields, bt.fields);
  }

  lemma {:induction false} FramePieces(h: Heap, h': Heap, ps: Pieces)
    requires RepPieces(h, ps) && Same(h, h', OwnPieces(h, ps))
    ensures RepPieces(h', ps) && OwnPieces(h', ps) == OwnPieces(h, ps)
  {
    if ps.Cons? {
      FramePiece(h, h', ps.head);
      FramePieces(h, h', ps.tail);
    }
  }

  lemma {:induction false} PiecesAreAllocated(h: Heap, ps: Pieces)
    requires RepPieces(h, ps)
    ensures forall q :: q in OwnPieces(h, ps) ==> q != 0 && q in h
  {
    if ps.Cons? {
      PieceIsAllocated(h, ps.head);
      PiecesAreAllocated(h, ps.tail);
    }
  }

  lemma KeptPieces(h: Heap, h': Heap, ps: Pieces)
    requires RepPieces(h, ps) && Keeps(h, h')
    ensures RepPieces(h', ps) && OwnPieces(h', ps) == OwnPieces(h, ps)
  {
    PiecesAreAllocated(h, ps);
    FramePieces(h, h', ps);
  }

  lemma {:induction false} Joined(h: Heap, ps: Pieces, qs: Pieces)
    requires RepPieces(h, ps) && RepPieces(h, qs)
    ensures RepPieces(h, Append(ps, qs))
    ensures OwnPieces(h, Append(ps, qs)) == OwnPieces(h, ps) + OwnPieces(h, qs)
  {
    if ps.Cons? {
      Joined(h, ps.tail, qs);
    }
  }

  lemma {:induction false} Parts(h: Heap, ps: Pieces, qs: Pieces)
    requires RepPieces(h, Append(ps, qs))
    ensures RepPieces(h, ps) && RepPieces(h, qs)
  {
    if ps.Cons? {
      Parts(h, ps.tail, qs);
    }
  }

  /** What `h` holds beyond `h0` is exactly the pieces `ps`. */
  ghost predicate Built(h0: Heap, h: Heap, ps: Pieces) {
    RepPieces(h, ps) && Grew(h0, h, OwnPieces(h, ps))
  }

  lemma NothingBuilt(h0: Heap, h: Heap)
    ensures Built(h0, h, Nil) <==> h == h0
  {
  }

  lemma BuiltOne(h0: Heap, h: Heap, piece: Piece)
    requires RepPiece(h, piece) && Grew(h0, h, OwnPiece(h, piece))
    ensures Built(h0, h, Cons(piece, Nil))
  {
    assert OwnPieces(h, Cons(piece, Nil)) == OwnPiece(h, piece);
  }

  lemma BuildMore(h0: Heap, h: Heap, h1: Heap, ps: Pieces, qs: Pieces)
    requires Built(h0, h, ps) && Built(h, h1, qs)
    ensures Built(h0, h1, Append(ps, qs))
  {
    KeptPieces(h, h1, ps);
    Joined(h1, ps, qs);
    GrewTwice(h0, h, h1, OwnPieces(h, ps), OwnPieces(h1, qs));
  }

  /** The order in which pieces are listed does not matter. */
  lemma Swapped(h0: Heap, h: Heap, ps: Pieces, qs: Pieces)
    requires Built(h0, h, Append(ps, qs))
    ensures Built(h0, h, Append(qs, ps))
  {
    Parts(h, ps, qs);
    Joined(h, ps, qs);
    Joined(h, qs, ps);
    var x, y := OwnPieces(h, ps), OwnPieces(h, qs);
    assert x + y == y + x;
  }

  /** Freeing the first piece leaves the others built. */
  lemma FreeFirst(h0: Heap, h: Heap, ps: Pieces)
    requires Built(h0, h, ps) && ps.Cons?
    ensures RepPiece(h, ps.head) && Once(OwnPiece(h, ps.head))
    ensures Built(h0, h - Addresses(OwnPiece(h, ps.head)), ps.tail)
  {
    var a, b := OwnPiece(h, ps.head), OwnPieces(h, ps.tail);
    OnceParts(a, b);
    Shrunk(h0, h, a, b);
    FramePieces(h, h - Addresses(a), ps.tail);
  }

  lemma Shrunk(h0: Heap, h: Heap, a: multiset<Ptr>, b: multiset<Ptr>)
    requires Grew(h0, h, a + b)
    ensures Same(h, h - Addresses(a), b)
    ensures Grew(h0, h - Addresses(a), b)
  {
    OnceParts(a, b);
  }
}
