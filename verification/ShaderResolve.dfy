/** Compiling a shader into a result on the C heap.

    A result is built piece by piece, in the order of its fields: the two texts, the name map, the five
    variable lists and the blocks.  Each method adds its pieces at the end of those already there. */
module ShaderResolve {
  import opened Wrappers
  import opened ShaderHeap
  import opened ShaderVariables
  import opened ShaderResults

  /** What ANGLE answers. A getter that gives a null pointer is `None`. */
  datatype Angle =
    | NoCompiler
    | Compiler(
        compiles: bool, infoLog: string, objectCode: string,
        nameMap: Option<seq<(string, string)>>,
        uniforms: Option<seq<Tree>>, inputVaryings: Option<seq<Tree>>, outputVaryings: Option<seq<Tree>>,
        attributes: Option<seq<Tree>>, outputVariables: Option<seq<Tree>>,
        uniformBlocks: Option<seq<BlockTree>>)

  /** A compile result as a value. */
  datatype Resolved = Resolved(
    ok: bool, infoLog: string, source: string, names: seq<(string, string)>,
    uniforms: seq<Tree>, inputVaryings: seq<Tree>, outputVaryings: seq<Tree>,
    attributes: seq<Tree>, outputVariables: seq<Tree>, blocks: seq<BlockTree>)

  function OrEmpty<T>(xs: Option<seq<T>>): seq<T> {
    if xs.Some? then xs.value else []
  }

  /** What a caller is told: variables only when they were asked for and the shader compiled. */
  function Resolve(angle: Angle, wantVariables: bool): Resolved {
    match angle
    case NoCompiler =>
      Resolved(false, "ShaderTranslator: failed to construct ANGLE compiler", "", [], [], [], [], [], [], [])
    case Compiler(compiles, log, code, names, u, i, o, a, v, b) =>
      if compiles && wantVariables
      then Resolved(true, log, code, OrEmpty(names), OrEmpty(u), OrEmpty(i), OrEmpty(o), OrEmpty(a), OrEmpty(v), OrEmpty(b))
      else Resolved(compiles, log, code, OrEmpty(names), [], [], [], [], [], [])
  }

  predicate BlocksNamed(bs: seq<BlockTree>) {
    forall i :: 0 <= i < |bs| ==> bs[i].name.Some? && AllNamed(bs[i].fields)
  }

  predicate AngleNames(angle: Angle) {
    angle.Compiler? ==>
      && AllNamed(OrEmpty(angle.uniforms)) && AllNamed(OrEmpty(angle.inputVaryings))
      && AllNamed(OrEmpty(angle.outputVaryings)) && AllNamed(OrEmpty(angle.attributes))
      && AllNamed(OrEmpty(angle.outputVariables)) && BlocksNamed(OrEmpty(angle.uniformBlocks))
  }

  // ----- The pieces of a result, in the order they are freed

  /** The structures inside a result: its own cell, the name map's arrays, the blocks. */
  datatype Shape = Shape(
    result: CompileResult,
    ppUserNames: Ptr, userNames: seq<Ptr>, ppCompiledNames: Ptr, compiledNames: seq<Ptr>,
    blocks: seq<InterfaceBlock>)

  function NameRange(us: seq<Ptr>, cs: seq<Ptr>, names: seq<(string, string)>, lo: nat, hi: nat): Pieces
    requires lo <= hi <= |names| == |us| == |cs|
    decreases hi - lo
  {
    if lo == hi then Nil
    else Cons(Raw(us[lo], Text(names[lo].0)), Cons(Raw(cs[lo], Text(names[lo].1)), NameRange(us, cs, names, lo + 1, hi)))
  }

  function MapPieces(m: Ptr, pu: Ptr, us: seq<Ptr>, pc: Ptr, cs: seq<Ptr>, rest: Pieces): Pieces {
    Cons(Raw(pu, Texts(us)), Cons(Raw(pc, Texts(cs)), Cons(Raw(m, NameMap(|us|, pu, pc)), rest)))
  }

  function NamePieces(m: Ptr, pu: Ptr, us: seq<Ptr>, pc: Ptr, cs: seq<Ptr>, names: seq<(string, string)>): Pieces
    requires |names| == |us| == |cs|
  {
    if names == [] then Cons(Raw(m, NameMap(0, 0, 0)), Nil)
    else Append(NameRange(us, cs, names, 0, |names|), MapPieces(m, pu, us, pc, cs, Nil))
  }

  function VariablePieces(r: CompileResult, v: Resolved): Pieces {
    Cons(Array(r.pUniforms, v.uniforms),
    Cons(Array(r.pInputVaryings, v.inputVaryings),
    Cons(Array(r.pOutputVaryings, v.outputVaryings),
    Cons(Array(r.pAllAttributes, v.attributes),
    Cons(Array(r.pActiveOutputVariables, v.outputVariables), Nil)))))
  }

  function BlockRange(bs: seq<InterfaceBlock>, ts: seq<BlockTree>, lo: nat, hi: nat): Pieces
    requires lo <= hi <= |bs| == |ts|
    decreases hi - lo
  {
    if lo == hi then Nil else Cons(Block(bs[lo], ts[lo]), BlockRange(bs, ts, lo + 1, hi))
  }

  function BlockPieces(p: Ptr, bs: seq<InterfaceBlock>, ts: seq<BlockTree>): Pieces
    requires |bs| == |ts|
  {
    if ts == [] then Nil else Append(BlockRange(bs, ts, 0, |ts|), Cons(Raw(p, Blocks(bs)), Nil))
  }

  /** The shape fits the value: every count is right, and every null pointer is one the value calls for.
      The name map is never null, whatever the outcome. */
  predicate Fits(s: Shape, v: Resolved) {
    && s.result.compileStatus == v.ok
    && s.result.nameHashingMap != 0
    && |s.userNames| == |s.compiledNames| == |v.names|
    && FitsAnswer(s.result, s.blocks, v)
  }

  predicate FitsAnswer(r: CompileResult, bs: seq<InterfaceBlock>, v: Resolved) {
    && r.uniformsCount == |v.uniforms|
    && r.inputVaryingsCount == |v.inputVaryings|
    && r.outputVaryingsCount == |v.outputVaryings|
    && r.allAttributesCount == |v.attributes|
    && r.activeOutputVariablesCount == |v.outputVariables|
    && r.uniformBlocksCount == |v.blocks| == |bs|
    && (r.pUniformBlocks == 0 <==> v.blocks == [])
  }

  /** The result without variables and blocks. */
  function Untold(r: CompileResult): CompileResult {
    r.(uniformsCount := 0, pUniforms := 0, inputVaryingsCount := 0, pInputVaryings := 0,
       outputVaryingsCount := 0, pOutputVaryings := 0, allAttributesCount := 0, pAllAttributes := 0,
       activeOutputVariablesCount := 0, pActiveOutputVariables := 0, uniformBlocksCount := 0, pUniformBlocks := 0)
  }

  predicate NoAnswer(r: CompileResult) {
    r == Untold(r)
  }

  function AnswerPieces(r: CompileResult, bs: seq<InterfaceBlock>, v: Resolved): Pieces
    requires FitsAnswer(r, bs, v)
  {
    Append(VariablePieces(r, v), BlockPieces(r.pUniformBlocks, bs, v.blocks))
  }

  function TextPieces(r: CompileResult, v: Resolved): Pieces {
    Cons(Raw(r.infoLog, Text(v.infoLog)), Cons(Raw(r.translatedSource, Text(v.source)), Nil))
  }

  /** Everything a result owns beside itself. */
  function ContentPieces(s: Shape, v: Resolved): Pieces
    requires Fits(s, v)
  {
    Append(TextPieces(s.result, v),
    Append(NamePieces(s.result.nameHashingMap, s.ppUserNames, s.userNames, s.ppCompiledNames, s.compiledNames, v.names),
           AnswerPieces(s.result, s.blocks, v)))
  }

  function ResultPieces(p: Ptr, s: Shape, v: Resolved): Pieces
    requires Fits(s, v)
  {
    Append(ContentPieces(s, v), Cons(Raw(p, Result(s.result)), Nil))
  }

  // ----- Lists of pieces

  lemma {:induction false} NameRangeGrows(us: seq<Ptr>, cs: seq<Ptr>, us': seq<Ptr>, cs': seq<Ptr>, names: seq<(string, string)>, lo: nat, hi: nat)
    requires lo <= hi < |names| == |us| == |cs| == |us'| == |cs'|
    requires us[..hi] == us'[..hi] && cs[..hi] == cs'[..hi]
    ensures NameRange(us', cs', names, lo, hi + 1)
         == Append(NameRange(us, cs, names, lo, hi), NameRange(us', cs', names, hi, hi + 1))
    decreases hi - lo
  {
    if lo < hi {
      assert us[lo] == us[..hi][lo] == us'[..hi][lo] == us'[lo];
      assert cs[lo] == cs[..hi][lo] == cs'[..hi][lo] == cs'[lo];
      NameRangeGrows(us, cs, us', cs', names, lo + 1, hi);
    }
  }

  lemma {:induction false} BlockRangeGrows(bs: seq<InterfaceBlock>, bs': seq<InterfaceBlock>, ts: seq<BlockTree>, lo: nat, hi: nat)
    requires lo <= hi < |ts| == |bs| == |bs'|
    requires bs[..hi] == bs'[..hi]
    ensures BlockRange(bs', ts, lo, hi + 1) == Append(BlockRange(bs, ts, lo, hi), Cons(Block(bs'[hi], ts[hi]), Nil))
    decreases hi - lo
  {
    if lo < hi {
      assert bs[lo] == bs[..hi][lo] == bs'[..hi][lo] == bs'[lo];
      BlockRangeGrows(bs, bs', ts, lo + 1, hi);
    }
  }

  lemma {:induction false} Regroup(a: Pieces, b: Pieces, c: Pieces)
    ensures Append(Append(a, b), c) == Append(a, Append(b, c))
  {
    if a.Cons? {
      Regroup(a.tail, b, c);
    }
  }

  lemma MapPiecesAppend(m: Ptr, pu: Ptr, us: seq<Ptr>, pc: Ptr, cs: seq<Ptr>, ps: Pieces, qs: Pieces)
    ensures Append(MapPieces(m, pu, us, pc, cs, ps), qs) == MapPieces(m, pu, us, pc, cs, Append(ps, qs))
  {
    var nameMap := Cons(Raw(m, NameMap(|us|, pu, pc)), ps);
    assert Append(nameMap, qs) == Cons(nameMap.head, Append(ps, qs));
    var compiled := Cons(Raw(pc, Texts(cs)), nameMap);
    assert Append(compiled, qs) == Cons(compiled.head, Append(nameMap, qs));
  }

  /** Overwriting a cell that is the first piece. */
  lemma StoreFirst(h0: Heap, h: Heap, p: Ptr, cell: Cell, cell': Cell, rest: Pieces)
    requires Built(h0, h, Cons(Raw(p, cell), rest))
    ensures Built(h0, h[p := cell'], Cons(Raw(p, cell'), rest))
  {
    var h' := h[p := cell'];
    StoredBeside(h0, h, p, OwnPieces(h, rest), cell');
    FramePieces(h, h', rest);
  }

  lemma StoredBeside(h0: Heap, h: Heap, p: Ptr, own: multiset<Ptr>, cell: Cell)
    requires p != 0 && Grew(h0, h, One(p) + own)
    ensures Same(h, h[p := cell], own) && Grew(h0, h[p := cell], One(p) + own)
  {
    OnceParts(One(p), own);
    assert p in One(p) + own;
  }

  /** Overwriting a cell that is the second piece. */
  lemma StoreSecond(h0: Heap, h: Heap, first: Piece, p: Ptr, cell: Cell, cell': Cell, rest: Pieces)
    requires Built(h0, h, Cons(first, Cons(Raw(p, cell), rest)))
    ensures Built(h0, h[p := cell'], Cons(first, Cons(Raw(p, cell'), rest)))
  {
    Turned(h0, h, first, Raw(p, cell), rest);
    StoreFirst(h0, h, p, cell, cell', Cons(first, rest));
    Turned(h0, h[p := cell'], Raw(p, cell'), first, rest);
  }

  lemma Turned(h0: Heap, h: Heap, a: Piece, b: Piece, rest: Pieces)
    requires Built(h0, h, Cons(a, Cons(b, rest)))
    ensures Built(h0, h, Cons(b, Cons(a, rest)))
  {
    assert RepPieces(h, Cons(b, rest));
    var x, y, z := OwnPiece(h, a), OwnPiece(h, b), OwnPieces(h, rest);
    assert OwnPieces(h, Cons(a, Cons(b, rest))) == x + (y + z);
    assert OwnPieces(h, Cons(b, Cons(a, rest))) == y + (x + z);
    assert x + (y + z) == y + (x + z);
  }

  // ----- Building a result

  method MakeText(heap: CHeap, text: string, ghost h0: Heap, ghost ps: Pieces) returns (p: Ptr)
    requires Built(h0, heap.blocks, ps)
    modifies heap
    ensures p != 0
    ensures Built(h0, heap.blocks, Append(ps, Cons(Raw(p, Text(text)), Nil)))
  {
    p := MakeCell(heap, Text(text), h0, ps);
  }

  method MakeCell(heap: CHeap, cell: Cell, ghost h0: Heap, ghost ps: Pieces) returns (p: Ptr)
    requires Built(h0, heap.blocks, ps)
    modifies heap
    ensures p != 0
    ensures Built(h0, heap.blocks, Append(ps, Cons(Raw(p, cell), Nil)))
  {
    ghost var h := heap.blocks;
    p := heap.Malloc(cell);
    BuiltOne(h, heap.blocks, Raw(p, cell));
    BuildMore(h0, h, heap.blocks, ps, Cons(Raw(p, cell), Nil));
  }

  /** The name map is always allocated; its two arrays only when there are names. */
  method ConvertNameMap(heap: CHeap, names: seq<(string, string)>)
    returns (m: Ptr, ghost pu: Ptr, ghost us: seq<Ptr>, ghost pc: Ptr, ghost cs: seq<Ptr>)
    modifies heap
    ensures m != 0 && |us| == |cs| == |names|
    ensures Built(old(heap.blocks), heap.blocks, NamePieces(m, pu, us, pc, cs, names))
  {
    ghost var h0 := heap.blocks;
    if |names| == 0 {
      NothingBuilt(h0, h0);
      m := MakeCell(heap, NameMap(0, 0, 0), h0, Nil);
      pu, us, pc, cs := 0, [], 0, [];
      return;
    }
    var user, compiled;
    m, user, us, compiled, cs := MallocNames(heap, |names|);
    var i := 0;
    while i < |names|
      invariant i <= |names| == |us| == |cs|
      invariant Built(h0, heap.blocks, MapPieces(m, user, us, compiled, cs, NameRange(us, cs, names, 0, i)))
    {
      us, cs := ConvertName(heap, m, user, compiled, names, i, h0, us, cs);
      i := i + 1;
    }
    pu, pc := user, compiled;
    MapPiecesAppend(m, pu, us, pc, cs, Nil, NameRange(us, cs, names, 0, |names|));
    Swapped(h0, heap.blocks, MapPieces(m, pu, us, pc, cs, Nil), NameRange(us, cs, names, 0, |names|));
  }

  method MallocNames(heap: CHeap, count: nat) returns (m: Ptr, pu: Ptr, ghost us: seq<Ptr>, pc: Ptr, ghost cs: seq<Ptr>)
    requires count > 0
    modifies heap
    ensures |us| == |cs| == count && m != 0
    ensures Built(old(heap.blocks), heap.blocks, MapPieces(m, pu, us, pc, cs, Nil))
  {
    ghost var h0 := heap.blocks;
    assert |seq(count, _ => 0)| == count;
    var junk, junk': seq<Ptr> :| |junk| == count && |junk'| == count;
    us, cs := junk, junk';
    NothingBuilt(h0, h0);
    pu := MakeCell(heap, Texts(junk), h0, Nil);
    pc := MakeCell(heap, Texts(junk'), h0, Cons(Raw(pu, Texts(us)), Nil));
    assert Append(Cons(Raw(pu, Texts(us)), Nil), Cons(Raw(pc, Texts(cs)), Nil))
        == Cons(Raw(pu, Texts(us)), Cons(Raw(pc, Texts(cs)), Nil));
    m := MakeCell(heap, NameMap(count, pu, pc), h0, Cons(Raw(pu, Texts(us)), Cons(Raw(pc, Texts(cs)), Nil)));
    TwoAndOne(Raw(pu, Texts(us)), Raw(pc, Texts(cs)), Raw(m, NameMap(count, pu, pc)));
  }

  lemma TwoAndOne(a: Piece, b: Piece, c: Piece)
    ensures Append(Cons(a, Cons(b, Nil)), Cons(c, Nil)) == Cons(a, Cons(b, Cons(c, Nil)))
  {
    assert Append(Cons(b, Nil), Cons(c, Nil)) == Cons(b, Cons(c, Nil));
  }

  method ConvertName(heap: CHeap, m: Ptr, pu: Ptr, pc: Ptr, names: seq<(string, string)>, i: nat,
      ghost h0: Heap, ghost us: seq<Ptr>, ghost cs: seq<Ptr>)
    returns (ghost us': seq<Ptr>, ghost cs': seq<Ptr>)
    requires i < |names| == |us| == |cs|
    requires Built(h0, heap.blocks, MapPieces(m, pu, us, pc, cs, NameRange(us, cs, names, 0, i)))
    modifies heap
    ensures |us'| == |cs'| == |names|
    ensures Built(h0, heap.blocks, MapPieces(m, pu, us', pc, cs', NameRange(us', cs', names, 0, i + 1)))
  {
    ghost var before := NameRange(us, cs, names, 0, i);
    var u := MakeText(heap, names[i].0, h0, MapPieces(m, pu, us, pc, cs, before));
    ghost var one := Append(before, Cons(Raw(u, Text(names[i].0)), Nil));
    MapPiecesAppend(m, pu, us, pc, cs, before, Cons(Raw(u, Text(names[i].0)), Nil));
    us' := us[i := u];
    StoreUser(heap, pu, i, u, h0, us, Cons(Raw(pc, Texts(cs)), Cons(Raw(m, NameMap(|us|, pu, pc)), one)));
    var c := MakeText(heap, names[i].1, h0, MapPieces(m, pu, us', pc, cs, one));
    ghost var two := Append(one, Cons(Raw(c, Text(names[i].1)), Nil));
    MapPiecesAppend(m, pu, us', pc, cs, one, Cons(Raw(c, Text(names[i].1)), Nil));
    cs' := cs[i := c];
    StoreCompiled(heap, pc, i, c, h0, Raw(pu, Texts(us')), cs, Cons(Raw(m, NameMap(|us|, pu, pc)), two));
    Regroup(before, Cons(Raw(u, Text(names[i].0)), Nil), Cons(Raw(c, Text(names[i].1)), Nil));
    NameRangeGrows(us, cs, us', cs', names, 0, i);
    assert NameRange(us', cs', names, i, i + 1)
        == Cons(Raw(u, Text(names[i].0)), Cons(Raw(c, Text(names[i].1)), Nil));
  }

  method StoreUser(heap: CHeap, p: Ptr, i: nat, q: Ptr, ghost h0: Heap, ghost us: seq<Ptr>, ghost rest: Pieces)
    requires i < |us| && Built(h0, heap.blocks, Cons(Raw(p, Texts(us)), rest))
    modifies heap
    ensures Built(h0, heap.blocks, Cons(Raw(p, Texts(us[i := q])), rest))
  {
    StoreFirst(h0, heap.blocks, p, Texts(us), Texts(us[i := q]), rest);
    heap.StoreText(p, i, q);
  }

  method StoreCompiled(heap: CHeap, p: Ptr, i: nat, q: Ptr, ghost h0: Heap, ghost first: Piece, ghost cs: seq<Ptr>, ghost rest: Pieces)
    requires i < |cs| && Built(h0, heap.blocks, Cons(first, Cons(Raw(p, Texts(cs)), rest)))
    modifies heap
    ensures Built(h0, heap.blocks, Cons(first, Cons(Raw(p, Texts(cs[i := q])), rest)))
  {
    StoreSecond(h0, heap.blocks, first, p, Texts(cs), Texts(cs[i := q]), rest);
    assert RepPieces(heap.blocks, Cons(Raw(p, Texts(cs)), rest));
    heap.StoreText(p, i, q);
  }

  method ConvertBlocks(heap: CHeap, ts: seq<BlockTree>) returns (count: nat, p: Ptr, ghost bs: seq<InterfaceBlock>)
    requires BlocksNamed(ts)
    modifies heap
    ensures count == |ts| == |bs| && (p == 0 <==> ts == [])
    ensures Built(old(heap.blocks), heap.blocks, BlockPieces(p, bs, ts))
  {
    ghost var h0 := heap.blocks;
    NothingBuilt(h0, h0);
    count := |ts|;
    if count == 0 {
      p, bs := 0, [];
      return;
    }
    assert |seq(count, _ => ZERO_BLOCK)| == count;
    var junk: seq<InterfaceBlock> :| |junk| == count;
    bs := junk;
    p := MakeCell(heap, Blocks(junk), h0, Nil);
    var i := 0;
    while i < count
      invariant i <= count == |bs|
      invariant Built(h0, heap.blocks, Cons(Raw(p, Blocks(bs)), BlockRange(bs, ts, 0, i)))
    {
      ghost var h := heap.blocks;
      ghost var before := BlockRange(bs, ts, 0, i);
      var b := ConvertInterfaceBlock(heap, ts[i]);
      BuiltOne(h, heap.blocks, Block(b, ts[i]));
      BuildMore(h0, h, heap.blocks, Cons(Raw(p, Blocks(bs)), before), Cons(Block(b, ts[i]), Nil));
      BlockRangeGrows(bs, bs[i := b], ts, 0, i);
      StoreFirst(h0, heap.blocks, p, Blocks(bs), Blocks(bs[i := b]), Append(before, Cons(Block(b, ts[i]), Nil)));
      heap.StoreBlock(p, i, b);
      bs := bs[i := b];
      i := i + 1;
    }
    Swapped(h0, heap.blocks, Cons(Raw(p, Blocks(bs)), Nil), BlockRange(bs, ts, 0, count));
  }

  const ZERO_RESULT := CompileResult(0, false, 0, 0, 0, 0, 0, 0, 0, 0, 0, 0, 0, 0, 0, 0, 0)

  /** A getter's null pointer leaves the count and the array zero. */
  method ConvertOptional(heap: CHeap, xs: Option<seq<Tree>>, ghost h0: Heap, ghost ps: Pieces) returns (count: nat, p: Ptr)
    requires AllNamed(OrEmpty(xs)) && Built(h0, heap.blocks, ps)
    modifies heap
    ensures count == |OrEmpty(xs)|
    ensures Built(h0, heap.blocks, Append(ps, Cons(Array(p, OrEmpty(xs)), Nil)))
  {
    ghost var h := heap.blocks;
    if xs.Some? {
      count, p := ConvertVectorToArray(heap, xs.value);
    } else {
      count, p := 0, 0;
      GrewNothing(h);
    }
    BuiltOne(h, heap.blocks, Array(p, OrEmpty(xs)));
    BuildMore(h0, h, heap.blocks, ps, Cons(Array(p, OrEmpty(xs)), Nil));
  }

  /** The five variable lists of a compiled shader. */
  method ConvertVariables(heap: CHeap, angle: Angle, r: CompileResult) returns (r': CompileResult)
    requires angle.Compiler? && AngleNames(angle) && angle.compiles
    modifies heap
    ensures r' == r.(
      uniformsCount := |OrEmpty(angle.uniforms)|, pUniforms := r'.pUniforms,
      inputVaryingsCount := |OrEmpty(angle.inputVaryings)|, pInputVaryings := r'.pInputVaryings,
      outputVaryingsCount := |OrEmpty(angle.outputVaryings)|, pOutputVaryings := r'.pOutputVaryings,
      allAttributesCount := |OrEmpty(angle.attributes)|, pAllAttributes := r'.pAllAttributes,
      activeOutputVariablesCount := |OrEmpty(angle.outputVariables)|, pActiveOutputVariables := r'.pActiveOutputVariables)
    ensures Built(old(heap.blocks), heap.blocks, VariablePieces(r', Resolve(angle, true)))
  {
    ghost var h0 := heap.blocks;
    NothingBuilt(h0, h0);
    var n1, p1 := ConvertOptional(heap, angle.uniforms, h0, Nil);
    ghost var one := Array(p1, OrEmpty(angle.uniforms));
    var n2, p2 := ConvertOptional(heap, angle.inputVaryings, h0, Cons(one, Nil));
    ghost var two := Array(p2, OrEmpty(angle.inputVaryings));
    var n3, p3 := ConvertOptional(heap, angle.outputVaryings, h0, Append(Cons(one, Nil), Cons(two, Nil)));
    ghost var three := Array(p3, OrEmpty(angle.outputVaryings));
    var n4, p4 := ConvertOptional(heap, angle.attributes, h0, Append(Append(Cons(one, Nil), Cons(two, Nil)), Cons(three, Nil)));
    ghost var four := Array(p4, OrEmpty(angle.attributes));
    ghost var all := Append(Append(Append(Cons(one, Nil), Cons(two, Nil)), Cons(three, Nil)), Cons(four, Nil));
    var n5, p5 := ConvertOptional(heap, angle.outputVariables, h0, all);
    FiveInARow(one, two, three, four, Array(p5, OrEmpty(angle.outputVariables)));
    r' := r.(uniformsCount := n1, pUniforms := p1, inputVaryingsCount := n2, pInputVaryings := p2,
      outputVaryingsCount := n3, pOutputVaryings := p3, allAttributesCount := n4, pAllAttributes := p4,
      activeOutputVariablesCount := n5, pActiveOutputVariables := p5);
  }

  lemma FiveInARow(a: Piece, b: Piece, c: Piece, d: Piece, e: Piece)
    ensures Append(Append(Append(Append(Cons(a, Nil), Cons(b, Nil)), Cons(c, Nil)), Cons(d, Nil)), Cons(e, Nil))
         == Cons(a, Cons(b, Cons(c, Cons(d, Cons(e, Nil)))))
  {
    Regroup(Cons(a, Nil), Cons(b, Nil), Cons(c, Nil));
    TwoAndOne(a, b, c);
    Regroup(Cons(a, Cons(b, Nil)), Cons(c, Nil), Cons(d, Nil));
    TwoAndOne(a, b, c);
    Regroup(Cons(a, Cons(b, Nil)), Cons(c, Cons(d, Nil)), Cons(e, Nil));
    TwoAndOne(c, d, e);
  }

  lemma NoVariables(h: Heap, r: CompileResult, v: Resolved)
    requires v.uniforms == v.inputVaryings == v.outputVaryings == v.attributes == v.outputVariables == []
    requires r.pUniforms == r.pInputVaryings == r.pOutputVaryings == r.pAllAttributes == r.pActiveOutputVariables == 0
    ensures Built(h, h, VariablePieces(r, v))
  {
    NothingBuilt(h, h);
    var five := Cons(Array(0, []), Nil);
    PushNull(h, Nil);
    PushNull(h, five);
    PushNull(h, Cons(Array(0, []), five));
    PushNull(h, Cons(Array(0, []), Cons(Array(0, []), five)));
    PushNull(h, Cons(Array(0, []), Cons(Array(0, []), Cons(Array(0, []), five))));
  }

  lemma PushNull(h: Heap, rest: Pieces)
    requires Built(h, h, rest)
    ensures Built(h, h, Cons(Array(0, []), rest))
  {
    assert OwnPieces(h, Cons(Array(0, []), rest)) == OwnPieces(h, rest);
  }

  method MakeTexts(heap: CHeap, log: string, source: string, r: CompileResult) returns (r': CompileResult)
    modifies heap
    ensures r' == r.(infoLog := r'.infoLog, translatedSource := r'.translatedSource)
    ensures forall v: Resolved :: v.infoLog == log && v.source == source ==>
      Built(old(heap.blocks), heap.blocks, TextPieces(r', v))
  {
    ghost var h0 := heap.blocks;
    NothingBuilt(h0, h0);
    var p := MakeText(heap, log, h0, Nil);
    var q := MakeText(heap, source, h0, Cons(Raw(p, Text(log)), Nil));
    r' := r.(infoLog := p, translatedSource := q);
    assert Append(Cons(Raw(p, Text(log)), Nil), Cons(Raw(q, Text(source)), Nil))
        == Cons(Raw(p, Text(log)), Cons(Raw(q, Text(source)), Nil));
  }

  lemma Chained(h1: Heap, h2: Heap, h3: Heap, h4: Heap, texts: Pieces, names: Pieces, answer: Pieces)
    requires Built(h1, h2, texts) && Built(h2, h3, names) && Built(h3, h4, answer)
    ensures Built(h1, h4, Append(texts, Append(names, answer)))
  {
    BuildMore(h2, h3, h4, names, answer);
    BuildMore(h1, h2, h4, texts, Append(names, answer));
  }

  method ReportFailure(heap: CHeap, wantVariables: bool, r0: CompileResult) returns (r: CompileResult, ghost s: Shape)
    requires r0 == ZERO_RESULT.(outputHandle := r0.outputHandle)
    modifies heap
    ensures s.result == r && r.outputHandle == r0.outputHandle && Fits(s, Resolve(NoCompiler, wantVariables))
    ensures Built(old(heap.blocks), heap.blocks, ContentPieces(s, Resolve(NoCompiler, wantVariables)))
  {
    ghost var v := Resolve(NoCompiler, wantVariables);
    ghost var h1 := heap.blocks;
    r := MakeTexts(heap, "ShaderTranslator: failed to construct ANGLE compiler", "", r0);
    ghost var h2 := heap.blocks;
    NothingBuilt(h2, h2);
    var m := MakeCell(heap, NameMap(0, 0, 0), h2, Nil);
    r := r.(nameHashingMap := m);
    s := Shape(r, 0, [], 0, [], []);
    ghost var h3 := heap.blocks;
    NoVariables(h3, r, v);
    NothingBuilt(h3, h3);
    BuildMore(h3, h3, h3, VariablePieces(r, v), BlockPieces(0, [], []));
    Chained(h1, h2, h3, h3, TextPieces(r, v), NamePieces(m, 0, [], 0, [], v.names), AnswerPieces(r, [], v));
  }

  method ReportCompiled(heap: CHeap, angle: Angle, wantVariables: bool, r0: CompileResult) returns (r: CompileResult, ghost s: Shape)
    requires angle.Compiler? && AngleNames(angle)
    requires r0 == ZERO_RESULT.(outputHandle := r0.outputHandle, compileStatus := angle.compiles)
    modifies heap
    ensures s.result == r && r.outputHandle == r0.outputHandle && Fits(s, Resolve(angle, wantVariables))
    ensures Built(old(heap.blocks), heap.blocks, ContentPieces(s, Resolve(angle, wantVariables)))
  {
    ghost var v := Resolve(angle, wantVariables);
    ghost var h1 := heap.blocks;
    r := MakeTexts(heap, angle.infoLog, angle.objectCode, r0);
    ghost var h2 := heap.blocks;
    ghost var pu, us, pc, cs;
    var m;
    m, pu, us, pc, cs := ConvertNameMap(heap, OrEmpty(angle.nameMap));
    r := r.(nameHashingMap := m);
    ghost var h3 := heap.blocks;
    ghost var texts, names := TextPieces(r, v), NamePieces(m, pu, us, pc, cs, v.names);
    ghost var bs;
    r, bs := ConvertAnswer(heap, angle, wantVariables, r);
    s := Shape(r, pu, us, pc, cs, bs);
    Chained(h1, h2, h3, heap.blocks, texts, names, AnswerPieces(r, bs, v));
  }

  /** The variables and blocks, when they are wanted and there are any. */
  method ConvertAnswer(heap: CHeap, angle: Angle, wantVariables: bool, r: CompileResult)
    returns (r': CompileResult, ghost bs: seq<InterfaceBlock>)
    requires angle.Compiler? && AngleNames(angle) && r.compileStatus == angle.compiles && NoAnswer(r)
    modifies heap
    ensures Untold(r') == r && FitsAnswer(r', bs, Resolve(angle, wantVariables))
    ensures Built(old(heap.blocks), heap.blocks, AnswerPieces(r', bs, Resolve(angle, wantVariables)))
  {
    ghost var v, h0 := Resolve(angle, wantVariables), heap.blocks;
    r', bs := r, [];
    if r.compileStatus && wantVariables {
      r' := ConvertVariables(heap, angle, r);
      ghost var h1 := heap.blocks;
      r', bs := ConvertOptionalBlocks(heap, angle.uniformBlocks, r');
      BuildMore(h0, h1, heap.blocks, VariablePieces(r', v), BlockPieces(r'.pUniformBlocks, bs, v.blocks));
    } else {
      NoVariables(h0, r, v);
      NothingBuilt(h0, h0);
      BuildMore(h0, h0, h0, VariablePieces(r, v), BlockPieces(0, [], []));
    }
  }

  method ConvertOptionalBlocks(heap: CHeap, blocks: Option<seq<BlockTree>>, r: CompileResult)
    returns (r': CompileResult, ghost bs: seq<InterfaceBlock>)
    requires BlocksNamed(OrEmpty(blocks)) && r.uniformBlocksCount == r.pUniformBlocks == 0
    modifies heap
    ensures r' == r.(uniformBlocksCount := |OrEmpty(blocks)|, pUniformBlocks := r'.pUniformBlocks)
    ensures |bs| == |OrEmpty(blocks)| && (r'.pUniformBlocks == 0 <==> OrEmpty(blocks) == [])
    ensures Built(old(heap.blocks), heap.blocks, BlockPieces(r'.pUniformBlocks, bs, OrEmpty(blocks)))
  {
    r', bs := r, [];
    if blocks.Some? {
      var count, p;
      count, p, bs := ConvertBlocks(heap, blocks.value);
      r' := r.(uniformBlocksCount := count, pUniformBlocks := p);
    } else {
      NothingBuilt(heap.blocks, heap.blocks);
    }
  }

  /** ANGLE's compilers, by handle; zero is no compiler. */
  class Compilers {
    var live: set<nat>

    constructor ()
      ensures live == {}
    {
      live := {};
    }

    method ConstructCompiler(succeeds: bool) returns (handle: nat)
      modifies this
      ensures live == old(live) + if succeeds then {handle} else {}
      ensures if succeeds then handle != 0 && handle !in old(live) else handle == 0
    {
      handle := 0;
      if succeeds {
        ghost var _ := FreshAddress(live);
        handle :| handle != 0 && handle !in live;
        live := live + {handle};
      }
    }
  }

  /** Whatever ANGLE answers, everything allocated on the way hangs off the result.  The compiler is the one
      the caller gave, or one constructed for the purpose, and the result carries its handle. */
  method STCompileAndResolve(heap: CHeap, compilers: Compilers, given: nat, angle: Angle, wantVariables: bool)
      returns (p: Ptr, handle: nat, ghost s: Shape)
    requires AngleNames(angle) && (given != 0 ==> angle.Compiler?)
    modifies heap, compilers
    ensures p != 0 && Fits(s, Resolve(angle, wantVariables))
    ensures Built(old(heap.blocks), heap.blocks, ResultPieces(p, s, Resolve(angle, wantVariables)))
    ensures s.result.outputHandle == handle && (handle == 0 <==> angle.NoCompiler?)
    ensures compilers.live == old(compilers.live) + if given == 0 && handle != 0 then {handle} else {}
    ensures if given != 0 then handle == given else handle !in old(compilers.live) || handle == 0
  {
    handle := given;
    if handle == 0 {
      handle := compilers.ConstructCompiler(angle.Compiler?);
    }
    ghost var h0 := heap.blocks;
    ghost var v := Resolve(angle, wantVariables);
    NothingBuilt(h0, h0);
    var r := ZERO_RESULT.(outputHandle := handle, compileStatus := handle != 0 && angle.compiles);
    p := MakeCell(heap, Result(r), h0, Nil);
    ghost var h1 := heap.blocks;
    ghost var zero := r;
    if handle != 0 {
      r, s := ReportCompiled(heap, angle, wantVariables, r);
    } else {
      r, s := ReportFailure(heap, wantVariables, r);
    }
    StoreOwn(heap, p, zero, r, h0, h1, s, v);
  }

  /** The finished members go into the result's own cell. */
  method StoreOwn(heap: CHeap, p: Ptr, ghost zero: CompileResult, r: CompileResult, ghost h0: Heap, ghost h1: Heap, ghost s: Shape, ghost v: Resolved)
    requires s.result == r && Fits(s, v)
    requires Built(h0, h1, Cons(Raw(p, Result(zero)), Nil)) && Built(h1, heap.blocks, ContentPieces(s, v))
    modifies heap
    ensures Built(h0, heap.blocks, ResultPieces(p, s, v))
  {
    ghost var content := ContentPieces(s, v);
    BuildMore(h0, h1, heap.blocks, Cons(Raw(p, Result(zero)), Nil), content);
    assert Append(Cons(Raw(p, Result(zero)), Nil), content) == Cons(Raw(p, Result(zero)), content);
    StoreFirst(h0, heap.blocks, p, Result(zero), Result(r), content);
    heap.StoreResult(p, r);
    assert Append(Cons(Raw(p, Result(r)), Nil), content) == Cons(Raw(p, Result(r)), content);
    Swapped(h0, heap.blocks, Cons(Raw(p, Result(r)), Nil), content);
  }
}
