/** The C heap under the shader-translator ABI, and what it means for a pointer structure in it
    to represent a tree of shader variables.

    `Rep` relates a structure to the tree it spells out, and `Own` is the multiset of allocations the
    structure reaches, so that `Once(Own(...))` says that freeing it frees nothing twice.  `Grew` says
    that a heap has gained exactly some fresh and distinct allocations.  The rest is how these go
    together: a structure depends on what it owns and on nothing else, and arrays are filled and
    emptied one element at a time. */
module ShaderHeap {
  import opened Wrappers

  type Ptr = nat   // 0 is the null pointer

  /** The members a copy takes over bit by bit. */
  datatype Scalars = Scalars(type_: nat, precision: nat, location: int, staticUse: bool, isRowMajorLayout: bool)

  datatype ShaderVariable = ShaderVariable(
    scalars: Scalars,
    name: Ptr,
    arraySizeCount: nat, pArraySizes: Ptr,
    fieldsCount: nat, pFields: Ptr)

  const ZERO_VARIABLE := ShaderVariable(Scalars(0, 0, 0, false, false), 0, 0, 0, 0, 0)

  datatype InterfaceBlock = InterfaceBlock(
    layout: int, isRowMajorLayout: bool, binding: int,
    name: Ptr,
    fieldsCount: nat, pFields: Ptr)

  const ZERO_BLOCK := InterfaceBlock(0, false, 0, 0, 0, 0)

  /** What an allocation holds. */
  datatype Cell =
    | Text(text: string)
    | Sizes(sizes: seq<nat>)
    | Variables(variables: seq<ShaderVariable>)
    | Blocks(blocks: seq<InterfaceBlock>)
    | Texts(texts: seq<Ptr>)
    | NameMap(entryCount: nat, ppUserNames: Ptr, ppCompiledNames: Ptr)
    | Result(result: CompileResult)

  datatype CompileResult = CompileResult(
    outputHandle: nat,   // ANGLE's compiler, not owned by the result
    compileStatus: bool,
    infoLog: Ptr, translatedSource: Ptr, nameHashingMap: Ptr,
    uniformsCount: nat, pUniforms: Ptr,
    inputVaryingsCount: nat, pInputVaryings: Ptr,
    outputVaryingsCount: nat, pOutputVaryings: Ptr,
    allAttributesCount: nat, pAllAttributes: Ptr,
    activeOutputVariablesCount: nat, pActiveOutputVariables: Ptr,
    uniformBlocksCount: nat, pUniformBlocks: Ptr)

  type Heap = map<Ptr, Cell>

  /** A shader variable as a value: what the pointers spell out. */
  datatype Tree = Tree(scalars: Scalars, name: Option<string>, sizes: seq<nat>, fields: seq<Tree>)

  const ZERO_TREE := Tree(ZERO_VARIABLE.scalars, None, [], [])

  datatype BlockTree = BlockTree(
    layout: int, isRowMajorLayout: bool, binding: int, name: Option<string>, fields: seq<Tree>)

  const ZERO_BLOCK_TREE := BlockTree(0, false, 0, None, [])

  // ----- Representation

  predicate RepText(h: Heap, p: Ptr, text: Option<string>) {
    match text
    case None => p == 0
    case Some(s) => p != 0 && p in h && h[p] == Text(s)
  }

  predicate RepSizes(h: Heap, p: Ptr, sizes: seq<nat>) {
    if sizes == [] then p == 0 else p != 0 && p in h && h[p] == Sizes(sizes)
  }

  predicate Rep(h: Heap, v: ShaderVariable, t: Tree)
    decreases t, 1
  {
    && v.scalars == t.scalars
    && RepText(h, v.name, t.name)
    && v.arraySizeCount == |t.sizes| && RepSizes(h, v.pArraySizes, t.sizes)
    && v.fieldsCount == |t.fields| && RepArray(h, v.pFields, t.fields)
  }

  predicate RepArray(h: Heap, p: Ptr, ts: seq<Tree>)
    decreases ts, 1
  {
    if ts == [] then p == 0
    else
      && p != 0 && p in h && h[p].Variables? && |h[p].variables| == |ts|
      && RepFirst(h, h[p].variables, ts, |ts|)
  }

  predicate RepFirst(h: Heap, vs: seq<ShaderVariable>, ts: seq<Tree>, n: nat)
    requires |vs| == |ts| && n <= |ts|
    decreases ts, 0
  {
    forall i :: 0 <= i < n ==> Rep(h, vs[i], ts[i])
  }

  predicate RepBlock(h: Heap, b: InterfaceBlock, t: BlockTree) {
    && b.layout == t.layout && b.isRowMajorLayout == t.isRowMajorLayout && b.binding == t.binding
    && RepText(h, b.name, t.name)
    && b.fieldsCount == |t.fields| && RepArray(h, b.pFields, t.fields)
  }

  // ----- Ownership: every allocation a structure reaches, counted

  function One(p: Ptr): multiset<Ptr> {
    if p == 0 then multiset{} else multiset{p}
  }

  function Own(h: Heap, v: ShaderVariable, t: Tree): multiset<Ptr>
    requires Rep(h, v, t)
    decreases t, 1
  {
    One(v.name) + One(v.pArraySizes) + OwnArray(h, v.pFields, t.fields)
  }

  function OwnArray(h: Heap, p: Ptr, ts: seq<Tree>): multiset<Ptr>
    requires RepArray(h, p, ts)
    decreases ts, 1
  {
    if ts == [] then multiset{} else One(p) + OwnFirst(h, h[p].variables, ts, |ts|)
  }

  /** What the first `n` of `vs` own. */
  function OwnFirst(h: Heap, vs: seq<ShaderVariable>, ts: seq<Tree>, n: nat): multiset<Ptr>
    requires |vs| == |ts| && n <= |ts|
    requires RepFirst(h, vs, ts, n)
    decreases ts, 0, n
  {
    if n == 0 then multiset{} else OwnFirst(h, vs, ts, n - 1) + Own(h, vs[n - 1], ts[n - 1])
  }

  function OwnBlock(h: Heap, b: InterfaceBlock, t: BlockTree): multiset<Ptr>
    requires RepBlock(h, b, t)
  {
    One(b.name) + OwnArray(h, b.pFields, t.fields)
  }

  /** Nothing is owned twice: the structure is a tree, and freeing it frees nothing twice. */
  ghost predicate Once(own: multiset<Ptr>) {
    forall p :: own[p] <= 1
  }

  function Addresses(own: multiset<Ptr>): set<Ptr> {
    set p | p in own
  }

  /** Two heaps hold the same at every address in `own`. */
  ghost predicate Same(h: Heap, h': Heap, own: multiset<Ptr>) {
    forall p :: p in own ==> p in h && p in h' && h'[p] == h[p]
  }

  ghost predicate Keeps(h: Heap, h': Heap) {
    forall p :: p in h ==> p in h' && h'[p] == h[p]
  }

  /** `h'` is `h` with exactly the allocations `own`, all of them new and distinct, added. */
  ghost predicate Grew(h: Heap, h': Heap, own: multiset<Ptr>) {
    && Keeps(h, h')
    && (forall p :: p in h' <==> p in h || p in own)
    && (forall p :: p in own ==> p !in h)
    && Once(own)
  }

  // ----- A structure depends on what it owns and on nothing else

  lemma {:induction false} Frame(h: Heap, h': Heap, v: ShaderVariable, t: Tree)
    requires Rep(h, v, t) && Same(h, h', Own(h, v, t))
    ensures Rep(h', v, t) && Own(h', v, t) == Own(h, v, t)
    decreases t, 1
  {
    assert v.name != 0 ==> v.name in Own(h, v, t);
    assert v.pArraySizes != 0 ==> v.pArraySizes in Own(h, v, t);
    FrameArray(h, h', v.pFields, t.fields);
  }

  lemma {:induction false} FrameArray(h: Heap, h': Heap, p: Ptr, ts: seq<Tree>)
    requires RepArray(h, p, ts) && Same(h, h', OwnArray(h, p, ts))
    ensures RepArray(h', p, ts) && OwnArray(h', p, ts) == OwnArray(h, p, ts)
    decreases ts, 1
  {
    if ts != [] {
      assert p in OwnArray(h, p, ts);
      FrameFirst(h, h', h[p].variables, ts, |ts|);
    }
  }

  lemma {:induction false} FrameFirst(h: Heap, h': Heap, vs: seq<ShaderVariable>, ts: seq<Tree>, n: nat)
    requires |vs| == |ts| && n <= |ts|
    requires RepFirst(h, vs, ts, n)
    requires Same(h, h', OwnFirst(h, vs, ts, n))
    ensures RepFirst(h', vs, ts, n)
    ensures OwnFirst(h', vs, ts, n) == OwnFirst(h, vs, ts, n)
    decreases ts, 0, n
  {
    if n > 0 {
      SameLess(h, h', vs, ts, n);
      FrameFirst(h, h', vs, ts, n - 1);
      Frame(h, h', vs[n - 1], ts[n - 1]);
      SameOneMore(h, h', vs, ts, n);
    }
  }

  lemma SameLess(h: Heap, h': Heap, vs: seq<ShaderVariable>, ts: seq<Tree>, n: nat)
    requires |vs| == |ts| && 0 < n <= |ts| && RepFirst(h, vs, ts, n) && Same(h, h', OwnFirst(h, vs, ts, n))
    ensures RepFirst(h, vs, ts, n - 1) && Same(h, h', OwnFirst(h, vs, ts, n - 1))
    ensures Rep(h, vs[n - 1], ts[n - 1]) && Same(h, h', Own(h, vs[n - 1], ts[n - 1]))
  {
    OneLess(h, vs, ts, n);
    SameParts(h, h', OwnFirst(h, vs, ts, n - 1), Own(h, vs[n - 1], ts[n - 1]));
  }

  lemma SameOneMore(h: Heap, h': Heap, vs: seq<ShaderVariable>, ts: seq<Tree>, n: nat)
    requires |vs| == |ts| && 0 < n <= |ts|
    requires RepFirst(h, vs, ts, n) && RepFirst(h, vs, ts, n - 1) && RepFirst(h', vs, ts, n - 1)
    requires Rep(h, vs[n - 1], ts[n - 1]) && Rep(h', vs[n - 1], ts[n - 1])
    requires OwnFirst(h', vs, ts, n - 1) == OwnFirst(h, vs, ts, n - 1)
    requires Own(h', vs[n - 1], ts[n - 1]) == Own(h, vs[n - 1], ts[n - 1])
    ensures RepFirst(h', vs, ts, n) && OwnFirst(h', vs, ts, n) == OwnFirst(h, vs, ts, n)
  {
    OneLess(h, vs, ts, n);
    OneMore(h', vs, ts, n - 1);
  }

  lemma SameParts(h: Heap, h': Heap, a: multiset<Ptr>, b: multiset<Ptr>)
    requires Same(h, h', a + b)
    ensures Same(h, h', a) && Same(h, h', b)
  {
    forall p | p in a || p in b
      ensures p in h && p in h' && h'[p] == h[p]
    {
      assert p in a + b;
    }
  }

  lemma OneMore(h: Heap, vs: seq<ShaderVariable>, ts: seq<Tree>, n: nat)
    requires |vs| == |ts| && n < |ts|
    requires RepFirst(h, vs, ts, n) && Rep(h, vs[n], ts[n])
    ensures RepFirst(h, vs, ts, n + 1)
    ensures OwnFirst(h, vs, ts, n + 1) == OwnFirst(h, vs, ts, n) + Own(h, vs[n], ts[n])
  {
  }

  lemma OneLess(h: Heap, vs: seq<ShaderVariable>, ts: seq<Tree>, n: nat)
    requires |vs| == |ts| && 0 < n <= |ts| && RepFirst(h, vs, ts, n)
    ensures RepFirst(h, vs, ts, n - 1) && Rep(h, vs[n - 1], ts[n - 1])
    ensures OwnFirst(h, vs, ts, n) == OwnFirst(h, vs, ts, n - 1) + Own(h, vs[n - 1], ts[n - 1])
  {
  }

  lemma FrameBlock(h: Heap, h': Heap, b: InterfaceBlock, t: BlockTree)
    requires RepBlock(h, b, t) && Same(h, h', OwnBlock(h, b, t))
    ensures RepBlock(h', b, t) && OwnBlock(h', b, t) == OwnBlock(h, b, t)
  {
    assert b.name != 0 ==> b.name in OwnBlock(h, b, t);
    FrameArray(h, h', b.pFields, t.fields);
  }

  /** Everything owned is allocated, and null is not owned. */
  lemma {:induction false} OwnedIsAllocated(h: Heap, v: ShaderVariable, t: Tree)
    requires Rep(h, v, t)
    ensures forall p :: p in Own(h, v, t) ==> p != 0 && p in h
    decreases t, 1
  {
    ArrayIsAllocated(h, v.pFields, t.fields);
  }

  lemma {:induction false} ArrayIsAllocated(h: Heap, p: Ptr, ts: seq<Tree>)
    requires RepArray(h, p, ts)
    ensures forall q :: q in OwnArray(h, p, ts) ==> q != 0 && q in h
    decreases ts, 1
  {
    if ts != [] {
      FirstAreAllocated(h, h[p].variables, ts, |ts|);
    }
  }

  lemma {:induction false} FirstAreAllocated(h: Heap, vs: seq<ShaderVariable>, ts: seq<Tree>, n: nat)
    requires |vs| == |ts| && n <= |ts|
    requires RepFirst(h, vs, ts, n)
    ensures forall q :: q in OwnFirst(h, vs, ts, n) ==> q != 0 && q in h
    decreases ts, 0, n
  {
    if n > 0 {
      FirstAreAllocated(h, vs, ts, n - 1);
      OwnedIsAllocated(h, vs[n - 1], ts[n - 1]);
    }
  }

  // ----- Growing and shrinking

  lemma GrewNothing(h: Heap)
    ensures Grew(h, h, multiset{})
  {
  }

  /** Growing leaves what was there represented as it was. */
  lemma KeptArray(h: Heap, h': Heap, p: Ptr, ts: seq<Tree>)
    requires RepArray(h, p, ts) && Keeps(h, h')
    ensures RepArray(h', p, ts) && OwnArray(h', p, ts) == OwnArray(h, p, ts)
  {
    ArrayIsAllocated(h, p, ts);
    FrameArray(h, h', p, ts);
  }

  lemma GrewTwice(h: Heap, h1: Heap, h2: Heap, a: multiset<Ptr>, b: multiset<Ptr>)
    requires Grew(h, h1, a) && Grew(h1, h2, b)
    ensures Grew(h, h2, a + b)
  {
    forall p
      ensures (a + b)[p] <= 1
    {
      assert a[p] <= 1 && b[p] <= 1;
    }
  }

  /** Freeing what growing added leaves the heap as it was. */
  lemma ShrinkUndoesGrow(h: Heap, h': Heap, own: multiset<Ptr>)
    requires Grew(h, h', own)
    ensures h' - Addresses(own) == h
  {
  }

  lemma OnceParts(a: multiset<Ptr>, b: multiset<Ptr>)
    requires Once(a + b)
    ensures Once(a) && Once(b) && forall p :: p in a ==> p !in b
  {
    forall p
      ensures a[p] <= 1 && b[p] <= 1 && (p in a ==> p !in b)
    {
      assert (a + b)[p] <= 1;
    }
  }

  // ----- Filling a freshly allocated array element by element

  /** Since `h0`, the array at `p` has been allocated and its first `n` elements built. The
      others still hold whatever the allocator left there. */
  ghost predicate Filling(h0: Heap, h: Heap, p: Ptr, ts: seq<Tree>, n: nat) {
    && p != 0 && p in h && h[p].Variables? && |h[p].variables| == |ts| && n <= |ts|
    && RepFirst(h, h[p].variables, ts, n)
    && Grew(h0, h, One(p) + OwnFirst(h, h[p].variables, ts, n))
  }

  lemma FillStep(h0: Heap, h: Heap, h1: Heap, p: Ptr, ts: seq<Tree>, n: nat, v: ShaderVariable)
    requires Filling(h0, h, p, ts, n) && n < |ts|
    requires Rep(h1, v, ts[n]) && Grew(h, h1, Own(h1, v, ts[n]))
    ensures h1[p] == h[p]
    ensures Filling(h0, h1[p := Variables(h[p].variables[n := v])], p, ts, n + 1)
  {
    var vs := h[p].variables;
    var h2 := h1[p := Variables(vs[n := v])];
    var first, own := OwnFirst(h, vs, ts, n), Own(h1, v, ts[n]);
    GrewAndStored(h0, h, h1, One(p) + first, own, p, h2[p]);
    StoredBeside(h0, h, h1, first, own, p, h2[p]);
    Appended(h, h1, h2, vs, ts, n, v);
    assert One(p) + first + own == One(p) + (first + own);
  }

  lemma StoredBeside(h0: Heap, h: Heap, h1: Heap, first: multiset<Ptr>, own: multiset<Ptr>, p: Ptr, cell: Cell)
    requires p != 0 && p in h && Grew(h0, h, One(p) + first) && Grew(h, h1, own)
    ensures Same(h, h1[p := cell], first) && Same(h1, h1[p := cell], own)
  {
    OnceParts(One(p), first);
  }

  lemma Appended(h: Heap, h1: Heap, h2: Heap, vs: seq<ShaderVariable>, ts: seq<Tree>, n: nat, v: ShaderVariable)
    requires |vs| == |ts| && n < |ts|
    requires RepFirst(h, vs, ts, n) && Same(h, h2, OwnFirst(h, vs, ts, n))
    requires Rep(h1, v, ts[n]) && Same(h1, h2, Own(h1, v, ts[n]))
    ensures RepFirst(h2, vs[n := v], ts, n + 1)
    ensures OwnFirst(h2, vs[n := v], ts, n + 1) == OwnFirst(h, vs, ts, n) + Own(h1, v, ts[n])
  {
    FrameFirst(h, h2, vs, ts, n);
    PrefixOnly(h2, vs, vs[n := v], ts, n);
    Frame(h1, h2, v, ts[n]);
    OneMore(h2, vs[n := v], ts, n);
  }

  lemma FillDone(h0: Heap, h: Heap, p: Ptr, ts: seq<Tree>)
    requires ts != [] && Filling(h0, h, p, ts, |ts|)
    ensures RepArray(h, p, ts) && Grew(h0, h, OwnArray(h, p, ts))
  {
  }

  /** Store to a cell allocated since `h0` after growing twice. */
  lemma GrewAndStored(h0: Heap, h: Heap, h1: Heap, a: multiset<Ptr>, b: multiset<Ptr>, p: Ptr, cell: Cell)
    requires Grew(h0, h, a) && Grew(h, h1, b) && p in a
    ensures Grew(h0, h1[p := cell], a + b)
  {
    GrewTwice(h0, h, h1, a, b);
  }

  lemma {:induction false} PrefixOnly(h: Heap, vs: seq<ShaderVariable>, vs': seq<ShaderVariable>, ts: seq<Tree>, n: nat)
    requires |vs| == |vs'| == |ts| && n <= |ts|
    requires vs[..n] == vs'[..n]
    requires RepFirst(h, vs, ts, n)
    ensures RepFirst(h, vs', ts, n) && OwnFirst(h, vs', ts, n) == OwnFirst(h, vs, ts, n)
    decreases n
  {
    forall i | 0 <= i < n
      ensures vs[i] == vs'[i]
    {
      assert vs[..n][i] == vs'[..n][i];
    }
    if n > 0 {
      assert vs[..n - 1] == vs[..n][..n - 1] == vs'[..n][..n - 1] == vs'[..n - 1];
      PrefixOnly(h, vs, vs', ts, n - 1);
    }
  }

  // ----- Emptying an array element by element

  lemma {:induction false} OwnPrefix(h: Heap, vs: seq<ShaderVariable>, ts: seq<Tree>, i: nat, n: nat)
    requires |vs| == |ts| && i <= n <= |ts|
    requires RepFirst(h, vs, ts, n)
    ensures RepFirst(h, vs, ts, i)
    ensures OwnFirst(h, vs, ts, i) <= OwnFirst(h, vs, ts, n)
    decreases n
  {
    if i < n {
      OneLess(h, vs, ts, n);
      OwnPrefix(h, vs, ts, i, n - 1);
    }
  }

  /** What the array at `p` of heap `h0` has become once its first `n` elements are destroyed. */
  ghost predicate Emptying(h0: Heap, h: Heap, p: Ptr, ts: seq<Tree>, n: nat)
    requires RepArray(h0, p, ts) && ts != [] && n <= |ts|
  {
    var vs := h0[p].variables;
    && p in h && h[p].Variables? && |h[p].variables| == |ts| && h[p].variables[n..] == vs[n..]
    && RepFirst(h0, vs, ts, n)
    && h == (h0 - Addresses(OwnFirst(h0, vs, ts, n)))[p := h[p]]
  }

  lemma EmptyNext(h0: Heap, h: Heap, p: Ptr, ts: seq<Tree>, n: nat)
    requires RepArray(h0, p, ts) && Once(OwnArray(h0, p, ts)) && n < |ts|
    requires Emptying(h0, h, p, ts, n)
    ensures Rep(h0, h0[p].variables[n], ts[n])
    ensures h[p].variables[n] == h0[p].variables[n]
    ensures Rep(h, h[p].variables[n], ts[n])
    ensures Own(h, h[p].variables[n], ts[n]) == Own(h0, h0[p].variables[n], ts[n])
    ensures Once(Own(h, h[p].variables[n], ts[n])) && p !in Own(h, h[p].variables[n], ts[n])
  {
    var vs := h0[p].variables;
    var v := vs[n];
    assert h[p].variables[n..][0] == vs[n..][0];
    OwnPrefix(h0, vs, ts, n + 1, |ts|);
    OneMore(h0, vs, ts, n);
    OwnedIsAllocated(h0, v, ts[n]);
    SameBesideRemoved(h0, h, p, OwnFirst(h0, vs, ts, n), Own(h0, v, ts[n]), OwnFirst(h0, vs, ts, |ts|));
    Frame(h0, h, v, ts[n]);
  }

  lemma SameBesideRemoved(h0: Heap, h: Heap, p: Ptr, gone: multiset<Ptr>, own: multiset<Ptr>, all: multiset<Ptr>)
    requires gone + own <= all && Once(One(p) + all) && p != 0
    requires p in h && h == (h0 - Addresses(gone))[p := h[p]]
    requires forall q :: q in own ==> q in h0
    ensures Same(h0, h, own) && Once(own) && p !in own
  {
    OnceParts(One(p), all);
    forall q | q in own
      ensures q !in gone && q != p && own[q] <= 1
    {
      assert (gone + own)[q] <= all[q] <= 1;
    }
  }

  lemma EmptyStep(h0: Heap, h: Heap, h1: Heap, p: Ptr, ts: seq<Tree>, n: nat)
    requires RepArray(h0, p, ts) && Once(OwnArray(h0, p, ts)) && n < |ts|
    requires Emptying(h0, h, p, ts, n)
    requires Rep(h, h[p].variables[n], ts[n]) && h1 == h - Addresses(Own(h, h[p].variables[n], ts[n]))
    ensures p in h1 && h1[p] == h[p]
    ensures Emptying(h0, h1[p := Variables(h1[p].variables[n := ZERO_VARIABLE])], p, ts, n + 1)
  {
    EmptyNext(h0, h, p, ts, n);
    var vs := h0[p].variables;
    var after := h1[p].variables[n := ZERO_VARIABLE];
    assert after[n + 1..] == h[p].variables[n..][1..] == vs[n..][1..] == vs[n + 1..];
    var h2 := h1[p := Variables(after)];
    forall q
      ensures q in OwnFirst(h0, vs, ts, n + 1) <==> q in OwnFirst(h0, vs, ts, n) || q in Own(h0, vs[n], ts[n])
    {
    }
    assert h2 == (h0 - Addresses(OwnFirst(h0, vs, ts, n + 1)))[p := h2[p]];
  }

  lemma FreshAddress(used: set<Ptr>) returns (p: Ptr)
    ensures p != 0 && p !in used
  {
    p := 1;
    var below: set<Ptr> := {};
    while p in used
      invariant p != 0 && below <= used && forall q :: q in below <==> 0 < q < p
      decreases |used - below|
    {
      assert used - below > used - (below + {p});
      SmallerSet(used - (below + {p}), used - below);
      below := below + {p};
      p := p + 1;
    }
  }

  lemma SmallerSet(a: set<Ptr>, b: set<Ptr>)
    requires a < b
    ensures |a| < |b|
  {
    var x :| x in b && x !in a;
    assert a <= b - {x};
    SubsetSize(a, b - {x});
  }

  lemma {:induction false} SubsetSize(a: set<Ptr>, b: set<Ptr>)
    requires a <= b
    ensures |a| <= |b|
  {
    if a != {} {
      var x :| x in a;
      SubsetSize(a - {x}, b - {x});
    }
  }
}
