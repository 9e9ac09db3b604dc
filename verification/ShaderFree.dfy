/** Freeing compile results, and the laws the shader-translator ABI as a whole obeys. */
module ShaderFree {
  import opened Wrappers
  import opened ShaderHeap
  import opened ShaderVariables
  import opened ShaderResults
  import opened ShaderResolve

  // ----- Freeing the pieces of a result one after another

  method FreeCell(heap: CHeap, p: Ptr, ghost cell: Cell, ghost h0: Heap, ghost rest: Pieces)
    requires Built(h0, heap.blocks, Cons(Raw(p, cell), rest))
    modifies heap
    ensures Built(h0, heap.blocks, rest)
  {
    FreeFirst(h0, heap.blocks, Cons(Raw(p, cell), rest));
    heap.Free(p);
  }

  method FreeArray(heap: CHeap, p: Ptr, count: nat, ghost ts: seq<Tree>, ghost h0: Heap, ghost rest: Pieces)
    requires count == |ts| && Built(h0, heap.blocks, Cons(Array(p, ts), rest))
    modifies heap
    ensures Built(h0, heap.blocks, rest)
  {
    FreeFirst(h0, heap.blocks, Cons(Array(p, ts), rest));
    DestroyVariableArray(heap, p, count, ts);
  }

  method FreeBlock(heap: CHeap, b: InterfaceBlock, ghost t: BlockTree, ghost h0: Heap, ghost rest: Pieces)
    requires Built(h0, heap.blocks, Cons(Block(b, t), rest))
    modifies heap
    ensures Built(h0, heap.blocks, rest)
  {
    FreeFirst(h0, heap.blocks, Cons(Block(b, t), rest));
    ReleaseBlock(heap, b, t);
  }

  method FreeNameMap(heap: CHeap, m: Ptr, ghost pu: Ptr, ghost us: seq<Ptr>, ghost pc: Ptr, ghost cs: seq<Ptr>,
      ghost names: seq<(string, string)>, ghost h0: Heap, ghost rest: Pieces)
    requires |names| == |us| == |cs|
    requires Built(h0, heap.blocks, Append(NamePieces(m, pu, us, pc, cs, names), rest))
    modifies heap
    ensures Built(h0, heap.blocks, rest)
  {
    MapRead(heap.blocks, m, pu, us, pc, cs, names, rest);
    var cell := heap.blocks[m];
    var i := 0;
    while i < cell.entryCount
      invariant i <= |names| && cell.NameMap? && cell.entryCount == |names|
      invariant names == [] ==> cell == NameMap(0, 0, 0) && Built(h0, heap.blocks, Cons(Raw(m, NameMap(0, 0, 0)), rest))
      invariant names != [] ==> cell == NameMap(|us|, pu, pc) && pu != 0 && pc != 0
      invariant names != [] ==>
        Built(h0, heap.blocks, Append(NameRange(us, cs, names, i, |names|), MapPieces(m, pu, us, pc, cs, rest)))
    {
      FreeName(heap, cell.ppUserNames, cell.ppCompiledNames, i, m, us, cs, names, h0, rest);
      i := i + 1;
    }
    FreeMapCells(heap, m, cell, us, cs, h0, rest);
  }

  method FreeMapCells(heap: CHeap, m: Ptr, cell: Cell, ghost us: seq<Ptr>, ghost cs: seq<Ptr>, ghost h0: Heap, ghost rest: Pieces)
    requires cell.NameMap? && (cell.ppUserNames == 0 <==> cell.ppCompiledNames == 0)
    requires Built(h0, heap.blocks,
      if cell.ppUserNames == 0 then Cons(Raw(m, cell), rest)
      else Cons(Raw(cell.ppUserNames, Texts(us)), Cons(Raw(cell.ppCompiledNames, Texts(cs)), Cons(Raw(m, cell), rest))))
    modifies heap
    ensures Built(h0, heap.blocks, rest)
  {
    ghost var own := Cons(Raw(m, cell), rest);
    FreeOrNull(heap, cell.ppUserNames, Texts(us), h0,
      if cell.ppUserNames == 0 then own else Cons(Raw(cell.ppCompiledNames, Texts(cs)), own));
    FreeOrNull(heap, cell.ppCompiledNames, Texts(cs), h0, own);
    FreeCell(heap, m, cell, h0, rest);
  }

  method FreeOrNull(heap: CHeap, p: Ptr, ghost cell: Cell, ghost h0: Heap, ghost rest: Pieces)
    requires Built(h0, heap.blocks, if p == 0 then rest else Cons(Raw(p, cell), rest))
    modifies heap
    ensures Built(h0, heap.blocks, rest)
  {
    if p != 0 {
      FreeCell(heap, p, cell, h0, rest);
    }
  }

  lemma MapRead(h: Heap, m: Ptr, pu: Ptr, us: seq<Ptr>, pc: Ptr, cs: seq<Ptr>, names: seq<(string, string)>, rest: Pieces)
    requires |names| == |us| == |cs|
    requires RepPieces(h, Append(NamePieces(m, pu, us, pc, cs, names), rest))
    ensures m in h
    ensures names == [] ==>
      h[m] == NameMap(0, 0, 0)
      && Append(NamePieces(m, pu, us, pc, cs, names), rest) == Cons(Raw(m, NameMap(0, 0, 0)), rest)
    ensures names != [] ==>
      h[m] == NameMap(|us|, pu, pc) && pu != 0 && pc != 0
      && Append(NamePieces(m, pu, us, pc, cs, names), rest)
         == Append(NameRange(us, cs, names, 0, |names|), MapPieces(m, pu, us, pc, cs, rest))
  {
    if names == [] {
      var empty := Cons(Raw(m, NameMap(0, 0, 0)), Nil);
      assert Append(empty, rest) == Cons(empty.head, rest);
    } else {
      MapInRange(us, cs, names, m, pu, pc, rest);
      Parts(h, NameRange(us, cs, names, 0, |names|), MapPieces(m, pu, us, pc, cs, rest));
      MapCells(h, m, pu, us, pc, cs, rest);
    }
  }

  method FreeName(heap: CHeap, pu: Ptr, pc: Ptr, i: nat, ghost m: Ptr, ghost us: seq<Ptr>, ghost cs: seq<Ptr>,
      ghost names: seq<(string, string)>, ghost h0: Heap, ghost rest: Pieces)
    requires i < |names| == |us| == |cs|
    requires Built(h0, heap.blocks, Append(NameRange(us, cs, names, i, |names|), MapPieces(m, pu, us, pc, cs, rest)))
    modifies heap
    ensures Built(h0, heap.blocks, Append(NameRange(us, cs, names, i + 1, |names|), MapPieces(m, pu, us, pc, cs, rest)))
  {
    ghost var arrays := MapPieces(m, pu, us, pc, cs, rest);
    ghost var later := NameRange(us, cs, names, i + 1, |names|);
    ghost var compiled := Cons(Raw(cs[i], Text(names[i].1)), later);
    assert Append(NameRange(us, cs, names, i, |names|), arrays)
        == Cons(Raw(us[i], Text(names[i].0)), Append(compiled, arrays));
    assert Append(compiled, arrays) == Cons(compiled.head, Append(later, arrays));
    Parts(heap.blocks, NameRange(us, cs, names, i, |names|), arrays);
    MapCells(heap.blocks, m, pu, us, pc, cs, rest);
    FreeCell(heap, heap.blocks[pu].texts[i], Text(names[i].0), h0, Append(compiled, arrays));
    Parts(heap.blocks, compiled, arrays);
    MapCells(heap.blocks, m, pu, us, pc, cs, rest);
    FreeCell(heap, heap.blocks[pc].texts[i], Text(names[i].1), h0, Append(later, arrays));
  }

  lemma MapCells(h: Heap, m: Ptr, pu: Ptr, us: seq<Ptr>, pc: Ptr, cs: seq<Ptr>, rest: Pieces)
    requires RepPieces(h, MapPieces(m, pu, us, pc, cs, rest))
    ensures m in h && h[m] == NameMap(|us|, pu, pc)
    ensures pu != 0 && pc != 0
    ensures pu in h && h[pu] == Texts(us)
    ensures pc in h && h[pc] == Texts(cs)
  {
    var second := Cons(Raw(pc, Texts(cs)), Cons(Raw(m, NameMap(|us|, pu, pc)), rest));
    assert RepPieces(h, second) && RepPieces(h, second.tail);
  }

  lemma MapInRange(us: seq<Ptr>, cs: seq<Ptr>, names: seq<(string, string)>, m: Ptr, pu: Ptr, pc: Ptr, rest: Pieces)
    requires |names| == |us| == |cs| && names != []
    ensures Append(NamePieces(m, pu, us, pc, cs, names), rest)
         == Append(NameRange(us, cs, names, 0, |names|), MapPieces(m, pu, us, pc, cs, rest))
  {
    Regroup(NameRange(us, cs, names, 0, |names|), MapPieces(m, pu, us, pc, cs, Nil), rest);
    MapPiecesAppend(m, pu, us, pc, cs, Nil, rest);
  }

  method FreeBlocks(heap: CHeap, p: Ptr, count: nat, ghost bs: seq<InterfaceBlock>, ghost ts: seq<BlockTree>, ghost h0: Heap, ghost rest: Pieces)
    requires |bs| == |ts| == count && (p == 0 <==> ts == [])
    requires Built(h0, heap.blocks, Append(BlockPieces(p, bs, ts), rest))
    modifies heap
    ensures Built(h0, heap.blocks, rest)
  {
    if p == 0 {
      return;
    }
    ghost var own := Cons(Raw(p, Blocks(bs)), rest);
    Regroup(BlockRange(bs, ts, 0, count), Cons(Raw(p, Blocks(bs)), Nil), rest);
    assert Append(Cons(Raw(p, Blocks(bs)), Nil), rest) == own;
    var i := 0;
    while i < count
      invariant i <= count
      invariant Built(h0, heap.blocks, Append(BlockRange(bs, ts, i, count), own))
    {
      Parts(heap.blocks, BlockRange(bs, ts, i, count), own);
      FreeBlock(heap, heap.blocks[p].blocks[i], ts[i], h0, Append(BlockRange(bs, ts, i + 1, count), own));
      i := i + 1;
    }
    FreeCell(heap, p, Blocks(bs), h0, rest);
  }

  lemma InFreeingOrder(p: Ptr, s: Shape, v: Resolved)
    requires Fits(s, v)
    ensures ResultPieces(p, s, v)
         == Cons(Raw(s.result.infoLog, Text(v.infoLog)), Cons(Raw(s.result.translatedSource, Text(v.source)), AfterTexts(p, s, v)))
  {
    var own := Cons(Raw(p, Result(s.result)), Nil);
    var names := NamePieces(s.result.nameHashingMap, s.ppUserNames, s.userNames, s.ppCompiledNames, s.compiledNames, v.names);
    var vars, blocks := VariablePieces(s.result, v), BlockPieces(s.result.pUniformBlocks, s.blocks, v.blocks);
    Regroup(TextPieces(s.result, v), Append(names, Append(vars, blocks)), own);
    Regroup(names, Append(vars, blocks), own);
    Regroup(vars, blocks, own);
    var rest := AfterTexts(p, s, v);
    var source := Cons(Raw(s.result.translatedSource, Text(v.source)), Nil);
    assert Append(source, rest) == Cons(source.head, rest);
  }

  function AfterTexts(p: Ptr, s: Shape, v: Resolved): Pieces
    requires Fits(s, v)
  {
    Append(NamePieces(s.result.nameHashingMap, s.ppUserNames, s.userNames, s.ppCompiledNames, s.compiledNames, v.names),
           Append(VariablePieces(s.result, v), AfterVariables(p, s, v)))
  }

  function AfterVariables(p: Ptr, s: Shape, v: Resolved): Pieces
    requires Fits(s, v)
  {
    Append(BlockPieces(s.result.pUniformBlocks, s.blocks, v.blocks), Cons(Raw(p, Result(s.result)), Nil))
  }

  method FreeVariables(heap: CHeap, r: CompileResult, ghost v: Resolved, ghost h0: Heap, ghost rest: Pieces)
    requires r.uniformsCount == |v.uniforms| && r.inputVaryingsCount == |v.inputVaryings|
    requires r.outputVaryingsCount == |v.outputVaryings| && r.allAttributesCount == |v.attributes|
    requires r.activeOutputVariablesCount == |v.outputVariables|
    requires Built(h0, heap.blocks, Append(VariablePieces(r, v), rest))
    modifies heap
    ensures Built(h0, heap.blocks, rest)
  {
    ghost var five := Cons(Array(r.pActiveOutputVariables, v.outputVariables), rest);
    ghost var four := Cons(Array(r.pAllAttributes, v.attributes), five);
    ghost var three := Cons(Array(r.pOutputVaryings, v.outputVaryings), four);
    ghost var two := Cons(Array(r.pInputVaryings, v.inputVaryings), three);
    FiveThen(r, v, rest);
    FreeArray(heap, r.pUniforms, r.uniformsCount, v.uniforms, h0, two);
    FreeArray(heap, r.pInputVaryings, r.inputVaryingsCount, v.inputVaryings, h0, three);
    FreeArray(heap, r.pOutputVaryings, r.outputVaryingsCount, v.outputVaryings, h0, four);
    FreeArray(heap, r.pAllAttributes, r.allAttributesCount, v.attributes, h0, five);
    FreeArray(heap, r.pActiveOutputVariables, r.activeOutputVariablesCount, v.outputVariables, h0, rest);
  }

  lemma FiveThen(r: CompileResult, v: Resolved, rest: Pieces)
    ensures Append(VariablePieces(r, v), rest) ==
      Cons(Array(r.pUniforms, v.uniforms),
      Cons(Array(r.pInputVaryings, v.inputVaryings),
      Cons(Array(r.pOutputVaryings, v.outputVaryings),
      Cons(Array(r.pAllAttributes, v.attributes),
      Cons(Array(r.pActiveOutputVariables, v.outputVariables), rest)))))
  {
    var five := Cons(Array(r.pActiveOutputVariables, v.outputVariables), Nil);
    var four := Cons(Array(r.pAllAttributes, v.attributes), five);
    var three := Cons(Array(r.pOutputVaryings, v.outputVaryings), four);
    assert Append(five, rest) == Cons(five.head, rest);
    assert Append(four, rest) == Cons(four.head, Append(five, rest));
    assert Append(three, rest) == Cons(three.head, Append(four, rest));
  }

  /** Frees a result: of what lay beyond `h0`, and was exactly the result, nothing is left. */
  method STFreeShaderResolveState(heap: CHeap, p: Ptr, ghost s: Shape, ghost v: Resolved, ghost h0: Heap)
    requires p == 0 ==> heap.blocks == h0
    requires p != 0 ==> Fits(s, v) && Built(h0, heap.blocks, ResultPieces(p, s, v))
    modifies heap
    ensures heap.blocks == h0
  {
    if p == 0 {
      return;
    }
    Parts(heap.blocks, ContentPieces(s, v), Cons(Raw(p, Result(s.result)), Nil));
    var r := heap.blocks[p].result;
    InFreeingOrder(p, s, v);
    ghost var blocksAndOwn := AfterVariables(p, s, v);
    ghost var names := NamePieces(r.nameHashingMap, s.ppUserNames, s.userNames, s.ppCompiledNames, s.compiledNames, v.names);
    FreeCell(heap, r.infoLog, Text(v.infoLog), h0, Cons(Raw(r.translatedSource, Text(v.source)), AfterTexts(p, s, v)));
    FreeCell(heap, r.translatedSource, Text(v.source), h0, AfterTexts(p, s, v));
    if r.nameHashingMap != 0 {
      FreeNameMap(heap, r.nameHashingMap, s.ppUserNames, s.userNames, s.ppCompiledNames, s.compiledNames, v.names,
        h0, Append(VariablePieces(r, v), blocksAndOwn));
    }
    FreeVariables(heap, r, v, h0, blocksAndOwn);
    FreeBlocks(heap, r.pUniformBlocks, r.uniformBlocksCount, s.blocks, v.blocks, h0, Cons(Raw(p, Result(r)), Nil));
    FreeCell(heap, p, Result(r), h0, Nil);
    NothingBuilt(h0, heap.blocks);
  }

  // ----- The laws of the ABI

  /** A caller may look into a result's name map without a null check, whatever the outcome. */
  lemma NameMapIsReadable(h0: Heap, h: Heap, p: Ptr, s: Shape, v: Resolved)
    requires Fits(s, v) && Built(h0, h, ResultPieces(p, s, v))
    ensures p in h && h[p] == Result(s.result)
    ensures s.result.nameHashingMap != 0 && s.result.nameHashingMap in h
    ensures h[s.result.nameHashingMap].NameMap? && h[s.result.nameHashingMap].entryCount == |v.names|
  {
    Parts(h, ContentPieces(s, v), Cons(Raw(p, Result(s.result)), Nil));
    var m := s.result.nameHashingMap;
    var names := NamePieces(m, s.ppUserNames, s.userNames, s.ppCompiledNames, s.compiledNames, v.names);
    var rest := Append(VariablePieces(s.result, v), BlockPieces(s.result.pUniformBlocks, s.blocks, v.blocks));
    Parts(h, TextPieces(s.result, v), Append(names, rest));
    MapRead(h, m, s.ppUserNames, s.userNames, s.ppCompiledNames, s.compiledNames, v.names, rest);
  }

  predicate SpellsNames(h: Heap, m: Ptr, names: seq<(string, string)>) {
    && m in h && h[m].NameMap? && h[m].entryCount == |names|
    && if names == [] then h[m].ppUserNames == h[m].ppCompiledNames == 0
       else SpellsEntries(h, h[m].ppUserNames, h[m].ppCompiledNames, names)
  }

  predicate SpellsEntries(h: Heap, pu: Ptr, pc: Ptr, names: seq<(string, string)>) {
    && pu in h && h[pu].Texts? && |h[pu].texts| == |names|
    && pc in h && h[pc].Texts? && |h[pc].texts| == |names|
    && forall i :: 0 <= i < |names| ==>
         RepText(h, h[pu].texts[i], Some(names[i].0)) && RepText(h, h[pc].texts[i], Some(names[i].1))
  }

  /** A list that ANGLE gave and that is to be told is there in full; any other is not there at all. */
  predicate SpellsVariables(h: Heap, count: nat, p: Ptr, given: Option<seq<Tree>>, told: bool) {
    if told && given.Some? then count == |given.value| && RepArray(h, p, given.value) else count == 0 && p == 0
  }

  predicate SpellsBlocks(h: Heap, count: nat, p: Ptr, given: Option<seq<BlockTree>>, told: bool) {
    if told && given.Some? && given.value != []
    then count == |given.value| && BlocksAt(h, p, given.value)
    else count == 0 && p == 0
  }

  predicate BlocksAt(h: Heap, p: Ptr, ts: seq<BlockTree>) {
    && p in h && h[p].Blocks? && |h[p].blocks| == |ts|
    && forall i :: 0 <= i < |ts| ==> RepBlock(h, h[p].blocks[i], ts[i])
  }

  /** What a caller finds by following the pointers of the result at `p`. */
  predicate Spells(h: Heap, p: Ptr, angle: Angle, wantVariables: bool) {
    && p in h && h[p].Result?
    && match angle
       case NoCompiler => SpellsFailure(h, h[p].result)
       case Compiler(compiles, _, _, _, _, _, _, _, _, _) => SpellsAnswer(h, h[p].result, angle, compiles && wantVariables)
  }

  predicate SpellsFailure(h: Heap, r: CompileResult) {
    && r.outputHandle == 0 && !r.compileStatus
    && RepText(h, r.infoLog, Some("ShaderTranslator: failed to construct ANGLE compiler"))
    && RepText(h, r.translatedSource, Some(""))
    && SpellsNames(h, r.nameHashingMap, [])
    && r.uniformsCount == r.inputVaryingsCount == r.outputVaryingsCount == r.allAttributesCount == 0
    && r.activeOutputVariablesCount == r.uniformBlocksCount == 0
    && r.pUniforms == r.pInputVaryings == r.pOutputVaryings == r.pAllAttributes == r.pActiveOutputVariables == 0
    && r.pUniformBlocks == 0
  }

  predicate SpellsAnswer(h: Heap, r: CompileResult, angle: Angle, told: bool)
    requires angle.Compiler?
  {
    && r.compileStatus == angle.compiles
    && RepText(h, r.infoLog, Some(angle.infoLog))
    && RepText(h, r.translatedSource, Some(angle.objectCode))
    && SpellsNames(h, r.nameHashingMap, if angle.nameMap.Some? then angle.nameMap.value else [])
    && SpellsVariables(h, r.uniformsCount, r.pUniforms, angle.uniforms, told)
    && SpellsVariables(h, r.inputVaryingsCount, r.pInputVaryings, angle.inputVaryings, told)
    && SpellsVariables(h, r.outputVaryingsCount, r.pOutputVaryings, angle.outputVaryings, told)
    && SpellsVariables(h, r.allAttributesCount, r.pAllAttributes, angle.attributes, told)
    && SpellsVariables(h, r.activeOutputVariablesCount, r.pActiveOutputVariables, angle.outputVariables, told)
    && SpellsBlocks(h, r.uniformBlocksCount, r.pUniformBlocks, angle.uniformBlocks, told)
  }

  lemma {:induction false} EntryAt(h: Heap, us: seq<Ptr>, cs: seq<Ptr>, names: seq<(string, string)>, lo: nat, i: nat)
    requires lo <= i < |names| == |us| == |cs|
    requires RepPieces(h, NameRange(us, cs, names, lo, |names|))
    ensures RepText(h, us[i], Some(names[i].0)) && RepText(h, cs[i], Some(names[i].1))
    decreases i - lo
  {
    var later := NameRange(us, cs, names, lo + 1, |names|);
    assert RepPieces(h, Cons(Raw(cs[lo], Text(names[lo].1)), later));
    if lo < i {
      EntryAt(h, us, cs, names, lo + 1, i);
    }
  }

  lemma NamesAreSpelt(h: Heap, m: Ptr, pu: Ptr, us: seq<Ptr>, pc: Ptr, cs: seq<Ptr>, names: seq<(string, string)>, rest: Pieces)
    requires |names| == |us| == |cs|
    requires RepPieces(h, Append(NamePieces(m, pu, us, pc, cs, names), rest))
    ensures SpellsNames(h, m, names)
  {
    MapRead(h, m, pu, us, pc, cs, names, rest);
    if names != [] {
      Parts(h, NameRange(us, cs, names, 0, |names|), MapPieces(m, pu, us, pc, cs, rest));
      MapCells(h, m, pu, us, pc, cs, rest);
      forall i | 0 <= i < |names|
        ensures RepText(h, us[i], Some(names[i].0)) && RepText(h, cs[i], Some(names[i].1))
      {
        EntryAt(h, us, cs, names, 0, i);
      }
    }
  }

  lemma {:induction false} BlockAt(h: Heap, bs: seq<InterfaceBlock>, ts: seq<BlockTree>, lo: nat, i: nat)
    requires lo <= i < |bs| == |ts| && RepPieces(h, BlockRange(bs, ts, lo, |ts|))
    ensures RepBlock(h, bs[i], ts[i])
    decreases i - lo
  {
    if lo < i {
      BlockAt(h, bs, ts, lo + 1, i);
    }
  }

  lemma BlocksAreSpelt(h: Heap, p: Ptr, bs: seq<InterfaceBlock>, ts: seq<BlockTree>)
    requires |bs| == |ts| && RepPieces(h, BlockPieces(p, bs, ts))
    ensures ts != [] ==> BlocksAt(h, p, ts)
  {
    if ts != [] {
      Parts(h, BlockRange(bs, ts, 0, |ts|), Cons(Raw(p, Blocks(bs)), Nil));
      forall i | 0 <= i < |ts|
        ensures RepBlock(h, bs[i], ts[i])
      {
        BlockAt(h, bs, ts, 0, i);
      }
    }
  }

  lemma VariablesAreSpelt(h: Heap, r: CompileResult, v: Resolved)
    requires RepPieces(h, VariablePieces(r, v))
    ensures RepArray(h, r.pUniforms, v.uniforms) && RepArray(h, r.pInputVaryings, v.inputVaryings)
    ensures RepArray(h, r.pOutputVaryings, v.outputVaryings) && RepArray(h, r.pAllAttributes, v.attributes)
    ensures RepArray(h, r.pActiveOutputVariables, v.outputVariables)
  {
    var five := Cons(Array(r.pActiveOutputVariables, v.outputVariables), Nil);
    var four := Cons(Array(r.pAllAttributes, v.attributes), five);
    var three := Cons(Array(r.pOutputVaryings, v.outputVaryings), four);
    assert RepPieces(h, three) && RepPieces(h, four) && RepPieces(h, five);
  }

  lemma ResultIsSpelt(h: Heap, p: Ptr, s: Shape, v: Resolved)
    requires Fits(s, v) && RepPieces(h, ResultPieces(p, s, v))
    ensures p in h && h[p] == Result(s.result)
    ensures RepText(h, s.result.infoLog, Some(v.infoLog)) && RepText(h, s.result.translatedSource, Some(v.source))
    ensures SpellsNames(h, s.result.nameHashingMap, v.names)
    ensures RepPieces(h, VariablePieces(s.result, v))
    ensures v.blocks != [] ==> BlocksAt(h, s.result.pUniformBlocks, v.blocks)
  {
    Parts(h, ContentPieces(s, v), Cons(Raw(p, Result(s.result)), Nil));
    var m := s.result.nameHashingMap;
    var names := NamePieces(m, s.ppUserNames, s.userNames, s.ppCompiledNames, s.compiledNames, v.names);
    var vars, blocks := VariablePieces(s.result, v), BlockPieces(s.result.pUniformBlocks, s.blocks, v.blocks);
    Parts(h, TextPieces(s.result, v), Append(names, Append(vars, blocks)));
    assert RepPieces(h, Cons(Raw(s.result.translatedSource, Text(v.source)), Nil));
    NamesAreSpelt(h, m, s.ppUserNames, s.userNames, s.ppCompiledNames, s.compiledNames, v.names, Append(vars, blocks));
    Parts(h, names, Append(vars, blocks));
    Parts(h, vars, blocks);
    BlocksAreSpelt(h, s.result.pUniformBlocks, s.blocks, v.blocks);
  }

  lemma AnswerIsSpelt(h: Heap, p: Ptr, s: Shape, angle: Angle, wantVariables: bool)
    requires Fits(s, Resolve(angle, wantVariables)) && RepPieces(h, ResultPieces(p, s, Resolve(angle, wantVariables)))
    requires angle.NoCompiler? ==> s.result.outputHandle == 0
    ensures Spells(h, p, angle, wantVariables)
  {
    var v := Resolve(angle, wantVariables);
    ResultIsSpelt(h, p, s, v);
    VariablesAreSpelt(h, s.result, v);
  }

  /** What the result of a compilation says, pointer by pointer, is what ANGLE answered. */
  method CompileAndRead(heap: CHeap, compilers: Compilers, given: nat, angle: Angle, wantVariables: bool) returns (p: Ptr)
    requires AngleNames(angle) && (given != 0 ==> angle.Compiler?)
    modifies heap, compilers
    ensures Spells(heap.blocks, p, angle, wantVariables)
  {
    var handle;
    ghost var s;
    p, handle, s := STCompileAndResolve(heap, compilers, given, angle, wantVariables);
    AnswerIsSpelt(heap.blocks, p, s, angle, wantVariables);
  }

  /** Compiling and then freeing leaves the heap as it was, whatever ANGLE answers.  A compiler constructed on
      the way stays: its handle is the caller's. */
  method CompileThenFree(heap: CHeap, compilers: Compilers, given: nat, angle: Angle, wantVariables: bool) returns (handle: nat)
    requires AngleNames(angle) && (given != 0 ==> angle.Compiler?)
    modifies heap, compilers
    ensures heap.blocks == old(heap.blocks)
    ensures compilers.live == old(compilers.live) + if given == 0 && angle.Compiler? then {handle} else {}
    ensures handle != 0 <==> angle.Compiler?
  {
    ghost var h0 := heap.blocks;
    var p;
    ghost var s;
    p, handle, s := STCompileAndResolve(heap, compilers, given, angle, wantVariables);
    STFreeShaderResolveState(heap, p, s, Resolve(angle, wantVariables), h0);
  }

  /** Copying a variable and destroying the copy, once or twice, leaves the heap as it was. */
  method CopyThenDestroyTwice(heap: CHeap, variable: Option<ShaderVariable>, ghost t: Tree)
    requires match variable case None => t == ZERO_TREE case Some(v) => Rep(heap.blocks, v, t)
    modifies heap
    ensures heap.blocks == old(heap.blocks)
  {
    ghost var h0 := heap.blocks;
    var copy := STCopyVariable(heap, variable, t);
    ShrinkUndoesGrow(h0, heap.blocks, Own(heap.blocks, copy, t));
    var after := STDestroyVariable(heap, Some(copy), t);
    assert heap.blocks == h0;
    after := STDestroyVariable(heap, after, ZERO_TREE);
  }

  method CopyBlockThenDestroyTwice(heap: CHeap, block: Option<InterfaceBlock>, ghost t: BlockTree)
    requires match block case None => t == ZERO_BLOCK_TREE case Some(b) => RepBlock(heap.blocks, b, t)
    modifies heap
    ensures heap.blocks == old(heap.blocks)
  {
    ghost var h0 := heap.blocks;
    var copy := STCopyInterfaceBlock(heap, block, t);
    ShrinkUndoesGrow(h0, heap.blocks, OwnBlock(heap.blocks, copy, t));
    var after := STDestroyInterfaceBlock(heap, Some(copy), t);
    assert heap.blocks == h0;
    after := STDestroyInterfaceBlock(heap, after, t.(name := None, fields := []));
  }

  /** What a pointer structure spells out is one value, so a copy of `t` is equal to its original. */
  lemma {:induction false} SpellsOneTree(h: Heap, v: ShaderVariable, t: Tree, u: Tree)
    requires Rep(h, v, t) && Rep(h, v, u)
    ensures t == u
    decreases t
  {
    assert |t.fields| == |u.fields|;
    forall i | 0 <= i < |t.fields|
      ensures t.fields[i] == u.fields[i]
    {
      var vs := h[v.pFields].variables;
      assert RepFirst(h, vs, t.fields, |vs|) && RepFirst(h, vs, u.fields, |vs|);
      SpellsOneTree(h, vs[i], t.fields[i], u.fields[i]);
    }
  }

  /** Original and copy live and die apart: destroying either leaves the other whole. */
  lemma CopyIsIndependent(h0: Heap, h: Heap, v: ShaderVariable, copy: ShaderVariable, t: Tree)
    requires Rep(h0, v, t)
    requires Rep(h, copy, t) && Grew(h0, h, Own(h, copy, t))
    ensures Rep(h, v, t) && Own(h, v, t) == Own(h0, v, t)
    ensures forall p :: p in Own(h, v, t) ==> p !in Own(h, copy, t)
    ensures Rep(h - Addresses(Own(h, v, t)), copy, t)
    ensures Rep(h - Addresses(Own(h, copy, t)), v, t)
  {
    OwnedIsAllocated(h0, v, t);
    Frame(h0, h, v, t);
    SameWithout(h, Own(h, copy, t), Own(h, v, t));
    SameWithout(h, Own(h, v, t), Own(h, copy, t));
    Frame(h, h - Addresses(Own(h, v, t)), copy, t);
    Frame(h, h - Addresses(Own(h, copy, t)), v, t);
  }

  lemma SameWithout(h: Heap, own: multiset<Ptr>, gone: multiset<Ptr>)
    requires forall p :: p in own ==> p in h && p !in gone
    ensures Same(h, h - Addresses(gone), own)
  {
  }
}
