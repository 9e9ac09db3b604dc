/** Building, copying and destroying shader variables on the C heap.

    Every method says which tree its argument spells out, and what the heap has gained or lost: building
    and copying add exactly what the new variable owns, destroying takes exactly that away. */
module ShaderVariables {
  import opened Wrappers
  import opened ShaderHeap

  /** The C allocator. An address given back may be handed out again. */
  class CHeap {
    var blocks: Heap

    constructor ()
      ensures blocks == map[]
    {
      blocks := map[];
    }

    method Malloc(cell: Cell) returns (p: Ptr)
      modifies this
      ensures p != 0 && p !in old(blocks)
      ensures blocks == old(blocks)[p := cell]
    {
      ghost var _ := FreshAddress(blocks.Keys);
      p :| p != 0 && p !in blocks;
      blocks := blocks[p := cell];
    }

    /** `free`: null is ignored, and anything else must be allocated. */
    method Free(p: Ptr)
      requires p == 0 || p in blocks
      modifies this
      ensures blocks == old(blocks) - Addresses(One(p))
    {
      if p != 0 {
        blocks := blocks - {p};
      }
    }

    method StoreVariable(p: Ptr, i: nat, v: ShaderVariable)
      requires p in blocks && blocks[p].Variables? && i < |blocks[p].variables|
      modifies this
      ensures blocks == old(blocks)[p := Variables(old(blocks[p].variables)[i := v])]
    {
      blocks := blocks[p := Variables(blocks[p].variables[i := v])];
    }

    method StoreText(p: Ptr, i: nat, q: Ptr)
      requires p in blocks && blocks[p].Texts? && i < |blocks[p].texts|
      modifies this
      ensures blocks == old(blocks)[p := Texts(old(blocks[p].texts)[i := q])]
    {
      blocks := blocks[p := Texts(blocks[p].texts[i := q])];
    }

    method StoreBlock(p: Ptr, i: nat, b: InterfaceBlock)
      requires p in blocks && blocks[p].Blocks? && i < |blocks[p].blocks|
      modifies this
      ensures blocks == old(blocks)[p := Blocks(old(blocks[p].blocks)[i := b])]
    {
      blocks := blocks[p := Blocks(blocks[p].blocks[i := b])];
    }

    method StoreResult(p: Ptr, r: CompileResult)
      requires p in blocks && blocks[p].Result?
      modifies this
      ensures blocks == old(blocks)[p := Result(r)]
    {
      blocks := blocks[p := Result(r)];
    }
  }

  method Strdup(heap: CHeap, text: string) returns (p: Ptr)
    modifies heap
    ensures RepText(heap.blocks, p, Some(text))
    ensures Grew(old(heap.blocks), heap.blocks, One(p))
  {
    p := heap.Malloc(Text(text));
  }

  /** A name is copied only if there is one. */
  method CopyText(heap: CHeap, p: Ptr, ghost text: Option<string>) returns (q: Ptr)
    requires RepText(heap.blocks, p, text)
    modifies heap
    ensures RepText(heap.blocks, q, text)
    ensures Grew(old(heap.blocks), heap.blocks, One(q))
  {
    if p == 0 {
      q := 0;
      GrewNothing(heap.blocks);
    } else {
      q := Strdup(heap, heap.blocks[p].text);
    }
  }

  method CopySizes(heap: CHeap, count: nat, p: Ptr, ghost sizes: seq<nat>) returns (q: Ptr)
    requires RepSizes(heap.blocks, p, sizes) && count == |sizes|
    modifies heap
    ensures RepSizes(heap.blocks, q, sizes)
    ensures Grew(old(heap.blocks), heap.blocks, One(q))
  {
    if count == 0 {
      q := 0;
      GrewNothing(heap.blocks);
    } else {
      q := heap.Malloc(Sizes(heap.blocks[p].sizes));
    }
  }

  /** Room for `count` variables, with arbitrary contents. */
  method MallocVariables(heap: CHeap, ghost ts: seq<Tree>, count: nat) returns (p: Ptr)
    requires count == |ts| > 0
    modifies heap
    ensures Filling(old(heap.blocks), heap.blocks, p, ts, 0)
  {
    assert |seq(count, _ => ZERO_VARIABLE)| == count;
    var junk: seq<ShaderVariable> :| |junk| == count;
    p := heap.Malloc(Variables(junk));
  }

  // ----- Copying

  method STCopyVariable(heap: CHeap, variable: Option<ShaderVariable>, ghost t: Tree) returns (out: ShaderVariable)
    requires match variable case None => t == ZERO_TREE case Some(v) => Rep(heap.blocks, v, t)
    modifies heap
    ensures Rep(heap.blocks, out, t)
    ensures Grew(old(heap.blocks), heap.blocks, Own(heap.blocks, out, t))
    decreases t, 1
  {
    out := ZERO_VARIABLE;
    if variable == None {
      GrewNothing(heap.blocks);
      return;
    }
    var v := variable.value;
    ghost var h0 := heap.blocks;
    var name := CopyText(heap, v.name, t.name);
    ghost var h1 := heap.blocks;
    var sizes := CopySizes(heap, v.arraySizeCount, v.pArraySizes, t.sizes);
    ghost var h2 := heap.blocks;
    KeptArray(h0, h2, v.pFields, t.fields);
    var fields := CopyFields(heap, v.fieldsCount, v.pFields, t.fields);
    out := ShaderVariable(v.scalars, name, v.arraySizeCount, sizes, v.fieldsCount, fields);
    Assembled(h0, h1, h2, heap.blocks, out, t);
  }

  method CopyFields(heap: CHeap, count: nat, source: Ptr, ghost ts: seq<Tree>) returns (p: Ptr)
    requires RepArray(heap.blocks, source, ts) && count == |ts|
    modifies heap
    ensures RepArray(heap.blocks, p, ts)
    ensures Grew(old(heap.blocks), heap.blocks, OwnArray(heap.blocks, p, ts))
    decreases ts, 1
  {
    if count == 0 {
      p := 0;
      GrewNothing(heap.blocks);
      return;
    }
    ghost var h0 := heap.blocks;
    p := MallocVariables(heap, ts, count);
    var i := 0;
    while i < count
      invariant i <= count && Filling(h0, heap.blocks, p, ts, i)
    {
      CopyField(heap, source, p, i, h0, ts);
      i := i + 1;
    }
    FillDone(h0, heap.blocks, p, ts);
  }

  method CopyField(heap: CHeap, source: Ptr, p: Ptr, i: nat, ghost h0: Heap, ghost ts: seq<Tree>)
    requires RepArray(h0, source, ts) && i < |ts| && Filling(h0, heap.blocks, p, ts, i)
    modifies heap
    ensures Filling(h0, heap.blocks, p, ts, i + 1)
    decreases ts, 0
  {
    ghost var h := heap.blocks;
    ElementKept(h0, h, source, ts, i);
    var v := STCopyVariable(heap, Some(heap.blocks[source].variables[i]), ts[i]);
    FillStep(h0, h, heap.blocks, p, ts, i, v);
    heap.StoreVariable(p, i, v);
  }

  lemma ElementKept(h: Heap, h': Heap, p: Ptr, ts: seq<Tree>, i: nat)
    requires RepArray(h, p, ts) && Keeps(h, h') && i < |ts|
    ensures p in h' && h'[p].Variables? && i < |h'[p].variables| && Rep(h', h'[p].variables[i], ts[i])
  {
    KeptArray(h, h', p, ts);
  }

  /** A variable put together from a name, its sizes and its fields, allocated one after another. */
  lemma Assembled(h0: Heap, h1: Heap, h2: Heap, h3: Heap, v: ShaderVariable, t: Tree)
    requires RepText(h1, v.name, t.name) && Grew(h0, h1, One(v.name))
    requires RepSizes(h2, v.pArraySizes, t.sizes) && Grew(h1, h2, One(v.pArraySizes))
    requires RepArray(h3, v.pFields, t.fields) && Grew(h2, h3, OwnArray(h3, v.pFields, t.fields))
    requires v.scalars == t.scalars && v.arraySizeCount == |t.sizes| && v.fieldsCount == |t.fields|
    ensures Rep(h3, v, t) && Grew(h0, h3, Own(h3, v, t))
  {
    GrewTwice(h0, h1, h2, One(v.name), One(v.pArraySizes));
    GrewTwice(h0, h2, h3, One(v.name) + One(v.pArraySizes), OwnArray(h3, v.pFields, t.fields));
  }

  method STCopyInterfaceBlock(heap: CHeap, block: Option<InterfaceBlock>, ghost t: BlockTree) returns (out: InterfaceBlock)
    requires match block case None => t == ZERO_BLOCK_TREE case Some(b) => RepBlock(heap.blocks, b, t)
    modifies heap
    ensures RepBlock(heap.blocks, out, t)
    ensures Grew(old(heap.blocks), heap.blocks, OwnBlock(heap.blocks, out, t))
  {
    out := ZERO_BLOCK;
    if block == None {
      GrewNothing(heap.blocks);
      return;
    }
    var b := block.value;
    ghost var h0 := heap.blocks;
    var name := CopyText(heap, b.name, t.name);
    ghost var h1 := heap.blocks;
    KeptArray(h0, h1, b.pFields, t.fields);
    var fields := CopyFields(heap, b.fieldsCount, b.pFields, t.fields);
    out := InterfaceBlock(b.layout, b.isRowMajorLayout, b.binding, name, b.fieldsCount, fields);
    GrewTwice(h0, h1, heap.blocks, One(name), OwnArray(heap.blocks, fields, t.fields));
  }

  // ----- Converting what ANGLE reports

  /** ANGLE keeps every name as a string, so a converted variable always has one. */
  predicate Named(t: Tree) {
    t.name.Some? && forall i :: 0 <= i < |t.fields| ==> Named(t.fields[i])
  }

  predicate AllNamed(ts: seq<Tree>) {
    forall i :: 0 <= i < |ts| ==> Named(ts[i])
  }

  method ConvertVariable(heap: CHeap, t: Tree) returns (out: ShaderVariable)
    requires Named(t)
    modifies heap
    ensures Rep(heap.blocks, out, t)
    ensures Grew(old(heap.blocks), heap.blocks, Own(heap.blocks, out, t))
    decreases t, 1
  {
    ghost var h0 := heap.blocks;
    var name := Strdup(heap, t.name.value);
    ghost var h1 := heap.blocks;
    var sizes := 0;
    if |t.sizes| != 0 {
      sizes := heap.Malloc(Sizes(t.sizes));
    }
    ghost var h2 := heap.blocks;
    var count, fields := ConvertVectorToArray(heap, t.fields);
    out := ShaderVariable(t.scalars, name, |t.sizes|, sizes, count, fields);
    Assembled(h0, h1, h2, heap.blocks, out, t);
  }

  method ConvertVectorToArray(heap: CHeap, ts: seq<Tree>) returns (count: nat, p: Ptr)
    requires AllNamed(ts)
    modifies heap
    ensures count == |ts| && RepArray(heap.blocks, p, ts)
    ensures Grew(old(heap.blocks), heap.blocks, OwnArray(heap.blocks, p, ts))
    decreases ts, 1
  {
    count := |ts|;
    if count == 0 {
      p := 0;
      GrewNothing(heap.blocks);
      return;
    }
    ghost var h0 := heap.blocks;
    p := MallocVariables(heap, ts, count);
    var i := 0;
    while i < count
      invariant i <= count && Filling(h0, heap.blocks, p, ts, i)
    {
      ConvertField(heap, p, i, h0, ts);
      i := i + 1;
    }
    FillDone(h0, heap.blocks, p, ts);
  }

  method ConvertField(heap: CHeap, p: Ptr, i: nat, ghost h0: Heap, ts: seq<Tree>)
    requires i < |ts| && Named(ts[i]) && Filling(h0, heap.blocks, p, ts, i)
    modifies heap
    ensures Filling(h0, heap.blocks, p, ts, i + 1)
    decreases ts, 0
  {
    ghost var h := heap.blocks;
    var v := ConvertVariable(heap, ts[i]);
    FillStep(h0, h, heap.blocks, p, ts, i, v);
    heap.StoreVariable(p, i, v);
  }

  method ConvertInterfaceBlock(heap: CHeap, t: BlockTree) returns (out: InterfaceBlock)
    requires t.name.Some? && AllNamed(t.fields)
    modifies heap
    ensures RepBlock(heap.blocks, out, t)
    ensures Grew(old(heap.blocks), heap.blocks, OwnBlock(heap.blocks, out, t))
  {
    ghost var h0 := heap.blocks;
    var name := Strdup(heap, t.name.value);
    ghost var h1 := heap.blocks;
    var count, fields := ConvertVectorToArray(heap, t.fields);
    out := InterfaceBlock(t.layout, t.isRowMajorLayout, t.binding, name, count, fields);
    GrewTwice(h0, h1, heap.blocks, One(name), OwnArray(heap.blocks, fields, t.fields));
  }

  // ----- Destroying

  /** Frees exactly what the variable owns and hands back the zeroed variable. */
  method DestroyVariableContents(heap: CHeap, variable: Option<ShaderVariable>, ghost t: Tree) returns (after: Option<ShaderVariable>)
    requires match variable case None => t == ZERO_TREE
             case Some(v) => Rep(heap.blocks, v, t) && Once(Own(heap.blocks, v, t))
    modifies heap
    ensures variable == None ==> after == None && heap.blocks == old(heap.blocks)
    ensures variable != None ==> after == Some(ZERO_VARIABLE)
    ensures variable != None ==>
      heap.blocks == old(heap.blocks) - Addresses(Own(old(heap.blocks), variable.value, t))
    decreases t, 2
  {
    if variable == None {
      return None;
    }
    ReleaseVariable(heap, variable.value, t);
    after := Some(ZERO_VARIABLE);
  }

  method ReleaseVariable(heap: CHeap, v: ShaderVariable, ghost t: Tree)
    requires Rep(heap.blocks, v, t) && Once(Own(heap.blocks, v, t))
    modifies heap
    ensures heap.blocks == old(heap.blocks) - Addresses(Own(old(heap.blocks), v, t))
    decreases t, 1
  {
    ghost var h0 := heap.blocks;
    heap.Free(v.name);
    heap.Free(v.pArraySizes);
    FieldsRemain(h0, heap.blocks, v, t);
    if v.pFields != 0 {
      EmptyFields(heap, v.pFields, v.fieldsCount, t.fields);
    }
  }

  /** Destroys the elements of a field array and then the array. */
  method EmptyFields(heap: CHeap, p: Ptr, count: nat, ghost ts: seq<Tree>)
    requires p != 0 && RepArray(heap.blocks, p, ts) && Once(OwnArray(heap.blocks, p, ts)) && count == |ts|
    modifies heap
    ensures heap.blocks == old(heap.blocks) - Addresses(OwnArray(old(heap.blocks), p, ts))
    decreases ts, 1
  {
    ghost var h0 := heap.blocks;
    var i := 0;
    while i < count
      invariant i <= count && Emptying(h0, heap.blocks, p, ts, i)
    {
      EmptyField(heap, p, i, h0, ts);
      i := i + 1;
    }
    heap.Free(p);
  }

  method EmptyField(heap: CHeap, p: Ptr, i: nat, ghost h0: Heap, ghost ts: seq<Tree>)
    requires RepArray(h0, p, ts) && Once(OwnArray(h0, p, ts)) && i < |ts| && Emptying(h0, heap.blocks, p, ts, i)
    modifies heap
    ensures Emptying(h0, heap.blocks, p, ts, i + 1)
    decreases ts, 0
  {
    ghost var h := heap.blocks;
    EmptyNext(h0, h, p, ts, i);
    var after := DestroyVariableContents(heap, Some(heap.blocks[p].variables[i]), ts[i]);
    EmptyStep(h0, h, heap.blocks, p, ts, i);
    heap.StoreVariable(p, i, after.value);
  }

  method DestroyVariableArray(heap: CHeap, p: Ptr, count: nat, ghost ts: seq<Tree>)
    requires RepArray(heap.blocks, p, ts) && Once(OwnArray(heap.blocks, p, ts)) && count == |ts|
    modifies heap
    ensures heap.blocks == old(heap.blocks) - Addresses(OwnArray(old(heap.blocks), p, ts))
  {
    if p == 0 {
      return;
    }
    EmptyFields(heap, p, count, ts);
  }

  method STDestroyVariable(heap: CHeap, variable: Option<ShaderVariable>, ghost t: Tree) returns (after: Option<ShaderVariable>)
    requires match variable case None => t == ZERO_TREE
             case Some(v) => Rep(heap.blocks, v, t) && Once(Own(heap.blocks, v, t))
    modifies heap
    ensures variable == None ==> after == None && heap.blocks == old(heap.blocks)
    ensures variable != None ==> after == Some(ZERO_VARIABLE)
    ensures variable != None ==>
      heap.blocks == old(heap.blocks) - Addresses(Own(old(heap.blocks), variable.value, t))
  {
    after := DestroyVariableContents(heap, variable, t);
  }

  /** Unlike a variable, a destroyed block keeps its layout, its binding and its row-major flag. */
  method STDestroyInterfaceBlock(heap: CHeap, block: Option<InterfaceBlock>, ghost t: BlockTree) returns (after: Option<InterfaceBlock>)
    requires match block case None => t == ZERO_BLOCK_TREE
             case Some(b) => RepBlock(heap.blocks, b, t) && Once(OwnBlock(heap.blocks, b, t))
    modifies heap
    ensures block == None ==> after == None && heap.blocks == old(heap.blocks)
    ensures block != None ==>
      after == Some(block.value.(name := 0, fieldsCount := 0, pFields := 0))
    ensures block != None ==>
      heap.blocks == old(heap.blocks) - Addresses(OwnBlock(old(heap.blocks), block.value, t))
  {
    if block == None {
      return None;
    }
    ReleaseBlock(heap, block.value, t);
    after := Some(block.value.(name := 0, fieldsCount := 0, pFields := 0));
  }

  method ReleaseBlock(heap: CHeap, b: InterfaceBlock, ghost t: BlockTree)
    requires RepBlock(heap.blocks, b, t) && Once(OwnBlock(heap.blocks, b, t))
    modifies heap
    ensures heap.blocks == old(heap.blocks) - Addresses(OwnBlock(old(heap.blocks), b, t))
  {
    ghost var h0 := heap.blocks;
    OnceParts(One(b.name), OwnArray(h0, b.pFields, t.fields));
    ArrayIsAllocated(h0, b.pFields, t.fields);
    heap.Free(b.name);
    FrameArray(h0, heap.blocks, b.pFields, t.fields);
    DestroyVariableArray(heap, b.pFields, b.fieldsCount, t.fields);
  }

  /** Freeing the name and the sizes leaves the fields whole. */
  lemma TextsApart(h: Heap, v: ShaderVariable, t: Tree)
    requires Rep(h, v, t) && Once(Own(h, v, t))
    ensures v.name != 0 ==> v.name != v.pArraySizes
    ensures Once(OwnArray(h, v.pFields, t.fields))
    ensures Same(h, h - Addresses(One(v.name)) - Addresses(One(v.pArraySizes)), OwnArray(h, v.pFields, t.fields))
  {
    ArrayIsAllocated(h, v.pFields, t.fields);
    ThreeApart(h, v.name, v.pArraySizes, OwnArray(h, v.pFields, t.fields));
  }

  lemma ThreeApart(h: Heap, p: Ptr, q: Ptr, own: multiset<Ptr>)
    requires Once(One(p) + One(q) + own) && forall r :: r in own ==> r in h
    ensures p != 0 ==> p != q
    ensures Once(own) && Same(h, h - Addresses(One(p)) - Addresses(One(q)), own)
  {
    OnceParts(One(p) + One(q), own);
    OnceParts(One(p), One(q));
    assert p != 0 ==> p in One(p) + One(q);
    assert q != 0 ==> q in One(p) + One(q);
  }

  lemma FreedInTurn(h: Heap, a: multiset<Ptr>, b: multiset<Ptr>, c: multiset<Ptr>)
    ensures h - Addresses(a) - Addresses(b) - Addresses(c) == h - Addresses(a + b + c)
  {
  }

  lemma FieldsRemain(h: Heap, h': Heap, v: ShaderVariable, t: Tree)
    requires Rep(h, v, t) && Once(Own(h, v, t))
    requires h' == h - Addresses(One(v.name)) - Addresses(One(v.pArraySizes))
    ensures RepArray(h', v.pFields, t.fields)
    ensures OwnArray(h', v.pFields, t.fields) == OwnArray(h, v.pFields, t.fields)
    ensures Once(OwnArray(h', v.pFields, t.fields))
    ensures v.pFields == 0 ==> t.fields == []
    ensures h' - Addresses(OwnArray(h', v.pFields, t.fields)) == h - Addresses(Own(h, v, t))
  {
    TextsApart(h, v, t);
    FrameArray(h, h', v.pFields, t.fields);
    FreedInTurn(h, One(v.name), One(v.pArraySizes), OwnArray(h, v.pFields, t.fields));
  }
}
