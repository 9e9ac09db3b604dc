/** The order in which disks reach the guest, and which disk that puts in which place. */
module BootOrder {
  datatype DiskRole =
    | Boot | InitBoot | VendorBoot | Vbmeta | VbmetaSystem | VbmetaVendorDlkm | VbmetaSystemDlkm
    | Super | Userdata | Metadata | Misc | Frp | Other

  function FromName(name: string): DiskRole {
    if name == "boot" || name == "boot_a" then Boot
    else if name == "init_boot" || name == "init_boot_a" then InitBoot
    else if name == "vendor_boot" || name == "vendor_boot_a" then VendorBoot
    else if name == "vbmeta" || name == "vbmeta_a" then Vbmeta
    else if name == "vbmeta_system" || name == "vbmeta_system_a" then VbmetaSystem
    else if name == "vbmeta_vendor_dlkm" || name == "vbmeta_vendor_dlkm_a" then VbmetaVendorDlkm
    else if name == "vbmeta_system_dlkm" || name == "vbmeta_system_dlkm_a" then VbmetaSystemDlkm
    else if name == "super" then Super
    else if name == "userdata" then Userdata
    else if name == "metadata" then Metadata
    else if name == "misc" then Misc
    else if name == "frp" then Frp
    else Other
  }

  function Priority(role: DiskRole): nat {
    match role
    case Boot => 0
    case InitBoot => 1
    case VendorBoot => 2
    case Vbmeta => 3
    case VbmetaSystem => 4
    case VbmetaVendorDlkm => 5
    case VbmetaSystemDlkm => 6
    case Super => 7
    case Userdata => 8
    case Metadata => 9
    case Misc => 10
    case Frp => 11
    case Other => 255
  }

  datatype SocDisk = SocDisk(name: string, path: string, role: DiskRole)

  // ----- The sort key: priority, then name

  predicate NameLeq(a: string, b: string) {
    if a == [] then true
    else if b == [] then false
    else if a[0] == b[0] then NameLeq(a[1..], b[1..])
    else a[0] < b[0]
  }

  predicate Leq(a: SocDisk, b: SocDisk) {
    Priority(a.role) < Priority(b.role) || (Priority(a.role) == Priority(b.role) && NameLeq(a.name, b.name))
  }

  predicate SameKey(a: SocDisk, b: SocDisk) {
    a.role == b.role && a.name == b.name
  }

  lemma {:induction false} NameOrder(a: string, b: string, c: string)
    ensures NameLeq(a, a)
    ensures NameLeq(a, b) || NameLeq(b, a)
    ensures NameLeq(a, b) && NameLeq(b, a) ==> a == b
    ensures NameLeq(a, b) && NameLeq(b, c) ==> NameLeq(a, c)
    decreases |a| + |b| + |c|
  {
    if a != [] && b != [] {
      NameOrder(a[1..], b[1..], if c == [] then [] else c[1..]);
      assert a == [a[0]] + a[1..] && b == [b[0]] + b[1..];
    } else if a != [] {
      NameOrder(a[1..], [], []);
    }
  }

  /** Disks are totally ordered by their keys. */
  lemma KeyOrder(a: SocDisk, b: SocDisk, c: SocDisk)
    ensures Leq(a, a)
    ensures Leq(a, b) || Leq(b, a)
    ensures Leq(a, b) && Leq(b, a) <==> SameKey(a, b)
    ensures Leq(a, b) && Leq(b, c) ==> Leq(a, c)
  {
    NameOrder(a.name, b.name, c.name);
    NameOrder(a.name, a.name, a.name);
  }

  // ----- A stable sort by that key

  predicate Sorted(ds: seq<SocDisk>) {
    forall i, j :: 0 <= i < j < |ds| ==> Leq(ds[i], ds[j])
  }

  /** The disks with the same key as `d`, in order. */
  function Alike(ds: seq<SocDisk>, d: SocDisk): seq<SocDisk> {
    if ds == [] then []
    else if SameKey(ds[0], d) then [ds[0]] + Alike(ds[1..], d)
    else Alike(ds[1..], d)
  }

  /** What `sort_by_key` promises: sorted, and disks with equal keys stay in order. */
  ghost predicate StablySorted(out: seq<SocDisk>, ds: seq<SocDisk>) {
    Sorted(out) && forall d :: Alike(out, d) == Alike(ds, d)
  }

  lemma {:induction false} AlikeBoth(a: seq<SocDisk>, b: seq<SocDisk>, d: SocDisk)
    ensures Alike(a + b, d) == Alike(a, d) + Alike(b, d)
  {
    if a == [] {
      assert a + b == b;
    } else {
      assert (a + b)[1..] == a[1..] + b;
      AlikeBoth(a[1..], b, d);
    }
  }

  lemma {:induction false} NoneAlike(ds: seq<SocDisk>, d: SocDisk)
    requires forall i :: 0 <= i < |ds| ==> !SameKey(ds[i], d)
    ensures Alike(ds, d) == []
  {
    if ds != [] {
      NoneAlike(ds[1..], d);
    }
  }

  /** Sorts by insertion, each disk after those it does not precede. */
  method SortDisks(ds: seq<SocDisk>) returns (out: seq<SocDisk>)
    ensures StablySorted(out, ds)
    ensures multiset(out) == multiset(ds)
    ensures forall i, j :: 0 <= i < j < |out| && out[i].role == out[j].role ==> NamesInOrder(out[i].name, out[j].name)
  {
    out := [];
    for k := 0 to |ds|
      invariant StablySorted(out, ds[..k])
      invariant multiset(out) == multiset(ds[..k])
    {
      var i := |out|;
      while i > 0 && !Leq(out[i - 1], ds[k])
        invariant 0 <= i <= |out|
        invariant forall j :: i <= j < |out| ==> !Leq(out[j], ds[k])
      {
        i := i - 1;
      }
      InsertedStably(out, ds[..k], ds[k], i);
      out := Inserted(out, ds[k], i);
      assert ds[..k + 1] == ds[..k] + [ds[k]];
    }
    assert ds[..|ds|] == ds;
    forall i, j | 0 <= i < j < |out| && out[i].role == out[j].role
      ensures NamesInOrder(out[i].name, out[j].name)
    {
      SortedIs(out, i, j);
    }
  }

  function Inserted(out: seq<SocDisk>, x: SocDisk, i: nat): seq<SocDisk>
    requires i <= |out|
  {
    out[..i] + [x] + out[i..]
  }

  /** `x` goes behind everything it does not precede and before everything it does. */
  predicate Belongs(out: seq<SocDisk>, x: SocDisk, i: nat) {
    && i <= |out|
    && (i > 0 ==> Leq(out[i - 1], x))
    && forall j :: i <= j < |out| ==> !Leq(out[j], x)
  }

  lemma InsertedStably(out: seq<SocDisk>, ds: seq<SocDisk>, x: SocDisk, i: nat)
    requires StablySorted(out, ds) && multiset(out) == multiset(ds) && Belongs(out, x, i)
    ensures StablySorted(Inserted(out, x, i), ds + [x])
    ensures multiset(Inserted(out, x, i)) == multiset(ds + [x])
  {
    InsertedSorted(out, x, i);
    forall d
      ensures Alike(Inserted(out, x, i), d) == Alike(ds + [x], d)
    {
      AddedAlike(out, ds, x, i, d);
    }
    InsertedPermutes(out, x, i);
  }

  lemma InsertedPermutes(out: seq<SocDisk>, x: SocDisk, i: nat)
    requires i <= |out|
    ensures multiset(Inserted(out, x, i)) == multiset(out) + multiset{x}
  {
    var front, back := out[..i], out[i..];
    assert out == front + back;
    assert multiset(front + [x] + back) == multiset(front) + multiset{x} + multiset(back);
  }

  lemma AddedAlike(out: seq<SocDisk>, ds: seq<SocDisk>, x: SocDisk, i: nat, d: SocDisk)
    requires Sorted(out) && Alike(out, d) == Alike(ds, d) && Belongs(out, x, i)
    ensures Alike(Inserted(out, x, i), d) == Alike(ds + [x], d)
  {
    InsertedAlike(out, x, i, d);
    AlikeBoth(ds, [x], d);
  }

  lemma InsertedSorted(out: seq<SocDisk>, x: SocDisk, i: nat)
    requires Sorted(out) && Belongs(out, x, i)
    ensures Sorted(Inserted(out, x, i))
  {
    var now := Inserted(out, x, i);
    forall a, b | 0 <= a < b < |now|
      ensures Leq(now[a], now[b])
    {
      if b == i {
        BeforeIsBelow(out, x, i, a);
      } else if a == i {
        KeyOrder(out[b - 1], x, x);
      } else {
        assert now[a] == out[if a < i then a else a - 1] && now[b] == out[if b < i then b else b - 1];
      }
    }
  }

  lemma BeforeIsBelow(out: seq<SocDisk>, x: SocDisk, i: nat, a: nat)
    requires Sorted(out) && Belongs(out, x, i) && a < i
    ensures Leq(out[a], x)
  {
    if a < i - 1 {
      KeyOrder(out[a], out[i - 1], x);
    }
  }

  lemma InsertedAlike(out: seq<SocDisk>, x: SocDisk, i: nat, d: SocDisk)
    requires Sorted(out) && Belongs(out, x, i)
    ensures Alike(Inserted(out, x, i), d) == Alike(out, d) + Alike([x], d)
  {
    var front, back := out[..i], out[i..];
    assert out == front + back;
    AlikeBoth(front + [x], back, d);
    AlikeBoth(front, [x], d);
    AlikeBoth(front, back, d);
    if SameKey(x, d) {
      forall j | 0 <= j < |back|
        ensures !SameKey(back[j], d)
      {
        KeyOrder(out[i + j], x, x);
      }
      NoneAlike(back, d);
    } else {
      assert Alike([x], d) == [];
    }
  }

  /** There is one stable sort, so it does not matter which algorithm computes it. */
  lemma {:induction false} StableSortIsUnique(a: seq<SocDisk>, b: seq<SocDisk>)
    requires Sorted(a) && Sorted(b) && forall d :: Alike(a, d) == Alike(b, d)
    ensures a == b
    decreases |a|
  {
    if a == [] {
      if b != [] {
        var d := b[0];
        var _ := Alike(a, d);
        FirstAlike(b);
      }
    } else {
      FirstAlike(a);
      assert Alike(a, a[0]) == Alike(b, a[0]);
      var i := SomeAlike(b, a[0]);
      FirstAlike(b);
      assert Alike(a, b[0]) == Alike(b, b[0]);
      var j := SomeAlike(a, b[0]);
      FirstIsLeast(a, j);
      FirstIsLeast(b, i);
      KeyOrder(b[i], a[0], b[0]);
      KeyOrder(a[j], b[0], a[0]);
      KeyOrder(a[0], a[j], b[0]);
      KeyOrder(b[0], b[i], a[0]);
      KeyOrder(a[0], b[0], b[0]);
      forall d
        ensures Alike(a[1..], d) == Alike(b[1..], d)
      {
        assert Alike(a, d) == Alike(b, d);
        if SameKey(a[0], d) {
          assert Alike(a, d)[1..] == Alike(a[1..], d) && Alike(b, d)[1..] == Alike(b[1..], d);
        }
      }
      StableSortIsUnique(a[1..], b[1..]);
      assert a == [a[0]] + a[1..] && b == [b[0]] + b[1..];
    }
  }

  lemma FirstAlike(ds: seq<SocDisk>)
    requires ds != []
    ensures Alike(ds, ds[0]) != [] && Alike(ds, ds[0])[0] == ds[0]
  {
  }

  lemma FirstIsLeast(ds: seq<SocDisk>, i: nat)
    requires Sorted(ds) && i < |ds|
    ensures Leq(ds[0], ds[i])
  {
    KeyOrder(ds[0], ds[0], ds[0]);
  }

  lemma {:induction false} SomeAlike(ds: seq<SocDisk>, d: SocDisk) returns (i: nat)
    requires Alike(ds, d) != []
    ensures i < |ds| && SameKey(ds[i], d)
  {
    if SameKey(ds[0], d) {
      i := 0;
    } else {
      var j := SomeAlike(ds[1..], d);
      i := j + 1;
    }
  }

  // ----- The order in plain words

  const ROLES_IN_ORDER := [
    Boot, InitBoot, VendorBoot, Vbmeta, VbmetaSystem, VbmetaVendorDlkm, VbmetaSystemDlkm,
    Super, Userdata, Metadata, Misc, Frp, Other]

  /** Where two names first differ their characters decide, and otherwise the shorter one comes first. */
  predicate NamesInOrder(a: string, b: string) {
    || a <= b
    || exists k :: 0 <= k < |a| && k < |b| && a[..k] == b[..k] && a[k] < b[k]
  }

  lemma {:induction false} NameLeqIs(a: string, b: string)
    ensures NameLeq(a, b) ==> NamesInOrder(a, b)
  {
    if NameLeq(a, b) && a != [] {
      if a[0] < b[0] {
        assert a[..0] == b[..0];
      } else {
        NameLeqIs(a[1..], b[1..]);
        assert a == [a[0]] + a[1..] && b == [b[0]] + b[1..];
        if k :| 0 <= k < |a[1..]| && k < |b[1..]| && a[1..][..k] == b[1..][..k] && a[1..][k] < b[1..][k] {
          assert a[..k + 1] == [a[0]] + a[1..][..k] && b[..k + 1] == [b[0]] + b[1..][..k];
          assert a[k + 1] == a[1..][k] && b[k + 1] == b[1..][k];
        }
      }
    }
  }

  /** Of two disks the one attached first has a role that is listed first, or the same role and a name that comes
      first. */
  lemma SortedIs(out: seq<SocDisk>, i: nat, j: nat)
    requires Sorted(out) && i < j < |out|
    ensures exists a, b :: 0 <= a <= b < 13 && ROLES_IN_ORDER[a] == out[i].role && ROLES_IN_ORDER[b] == out[j].role
    ensures out[i].role == out[j].role ==> NamesInOrder(out[i].name, out[j].name)
  {
    assert Leq(out[i], out[j]);
    NameLeqIs(out[i].name, out[j].name);
    RoleListed(out[i].role);
    RoleListed(out[j].role);
    assert Rank(out[i].role) <= Rank(out[j].role);
  }

  function Rank(r: DiskRole): (i: nat)
    ensures i < 13
  {
    if Priority(r) < 12 then Priority(r) else 12
  }

  lemma RoleListed(r: DiskRole)
    ensures ROLES_IN_ORDER[Rank(r)] == r
  {
  }

  // ----- Which disk lands where

  /** How many disks come before every disk of priority `p`. */
  function Below(ds: seq<SocDisk>, p: nat): nat {
    if ds == [] then 0 else (if Priority(ds[0].role) < p then 1 else 0) + Below(ds[1..], p)
  }

  lemma {:induction false} BelowBoth(a: seq<SocDisk>, b: seq<SocDisk>, p: nat)
    ensures Below(a + b, p) == Below(a, p) + Below(b, p)
  {
    if a == [] {
      assert a + b == b;
    } else {
      assert (a + b)[1..] == a[1..] + b;
      BelowBoth(a[1..], b, p);
    }
  }

  lemma {:induction false} BelowIsOfTheMultiset(a: seq<SocDisk>, b: seq<SocDisk>, p: nat)
    requires multiset(a) == multiset(b)
    ensures Below(a, p) == Below(b, p)
  {
    if a == [] {
      assert |multiset(b)| == 0;
      assert b == [];
    } else {
      assert a[0] in multiset(b);
      var i :| 0 <= i < |b| && b[i] == a[0];
      var rest := b[..i] + b[i + 1..];
      WithoutOne(a, b, i);
      BelowIsOfTheMultiset(a[1..], rest, p);
      BelowBoth(b[..i], [b[i]] + b[i + 1..], p);
      BelowBoth([b[i]], b[i + 1..], p);
      BelowBoth(b[..i], b[i + 1..], p);
      assert b == b[..i] + ([b[i]] + b[i + 1..]);
    }
  }

  lemma WithoutOne(a: seq<SocDisk>, b: seq<SocDisk>, i: nat)
    requires a != [] && i < |b| && b[i] == a[0] && multiset(a) == multiset(b)
    ensures multiset(a[1..]) == multiset(b[..i] + b[i + 1..])
  {
    assert a == [a[0]] + a[1..];
    assert b == b[..i] + [b[i]] + b[i + 1..];
    assert multiset(a[1..]) == multiset(a) - multiset{a[0]};
    assert multiset(b[..i] + b[i + 1..]) == multiset(b) - multiset{b[i]};
  }

  /** In a sorted list the disks below a priority are exactly the first so many. */
  lemma {:induction false} BelowIsPrefix(out: seq<SocDisk>, p: nat, k: nat)
    requires Sorted(out) && k < |out|
    ensures Below(out, p) <= |out|
    ensures Priority(out[k].role) < p <==> k < Below(out, p)
  {
    BelowAtMost(out[1..], p);
    assert forall i :: 0 <= i < |out| - 1 ==> out[1..][i] == out[i + 1];
    if Priority(out[0].role) >= p {
      assert forall i :: 0 < i < |out| ==> Leq(out[0], out[i]);
      NoneBelow(out, p);
    } else if k > 0 {
      BelowIsPrefix(out[1..], p, k - 1);
    }
  }

  lemma {:induction false} BelowAtMost(ds: seq<SocDisk>, p: nat)
    ensures Below(ds, p) <= |ds|
  {
    if ds != [] {
      BelowAtMost(ds[1..], p);
    }
  }

  lemma {:induction false} NoneBelow(ds: seq<SocDisk>, p: nat)
    requires forall i :: 0 <= i < |ds| ==> Priority(ds[i].role) >= p
    ensures Below(ds, p) == 0
  {
    if ds != [] {
      NoneBelow(ds[1..], p);
    }
  }

  /** The disk attached as number `k` has the role `r` exactly when at most `k` disks go before that role
      and more than `k` go before or share it. */
  lemma AttachedAt(ds: seq<SocDisk>, out: seq<SocDisk>, k: nat, r: DiskRole)
    requires Sorted(out) && multiset(out) == multiset(ds)
    ensures k < |out| && out[k].role == r <==> Below(ds, Priority(r)) <= k < Below(ds, Priority(r) + 1)
  {
    BelowIsOfTheMultiset(out, ds, Priority(r));
    BelowIsOfTheMultiset(out, ds, Priority(r) + 1);
    BelowAtMost(out, Priority(r) + 1);
    if k < |out| {
      BelowIsPrefix(out, Priority(r), k);
      BelowIsPrefix(out, Priority(r) + 1, k);
    }
  }

  predicate Has(ds: seq<SocDisk>, r: DiskRole) {
    exists i :: 0 <= i < |ds| && ds[i].role == r
  }

  /** What `vdb,userdata` and `vdc,frp` in the partition map promise about the attach order. */
  predicate MapHolds(out: seq<SocDisk>) {
    && (Has(out, Userdata) ==> |out| > 1 && out[1].role == Userdata)
    && (Has(out, Frp) ==> |out| > 2 && out[2].role == Frp)
  }

  lemma HasIsOfTheMultiset(a: seq<SocDisk>, b: seq<SocDisk>, r: DiskRole)
    requires multiset(a) == multiset(b)
    ensures Has(a, r) ==> Has(b, r)
  {
    if Has(a, r) {
      var i :| 0 <= i < |a| && a[i].role == r;
      assert a[i] in multiset(b);
      var j :| 0 <= j < |b| && b[j] == a[i];
    }
  }

  /** The hard-coded map is right exactly when the disks named before userdata and before frp are as
      many as it supposes. */
  lemma MapHoldsIff(ds: seq<SocDisk>, out: seq<SocDisk>)
    requires Sorted(out) && multiset(out) == multiset(ds)
    ensures MapHolds(out) <==>
      && (Has(ds, Userdata) ==> Below(ds, 8) <= 1 < Below(ds, 9))
      && (Has(ds, Frp) ==> Below(ds, 11) <= 2 < Below(ds, 12))
  {
    HasIsOfTheMultiset(out, ds, Userdata);
    HasIsOfTheMultiset(ds, out, Userdata);
    HasIsOfTheMultiset(out, ds, Frp);
    HasIsOfTheMultiset(ds, out, Frp);
    AttachedAt(ds, out, 1, Userdata);
    AttachedAt(ds, out, 2, Frp);
  }

  /** What the `vda` entries promise: the disk attached first is the super disk. */
  predicate SuperFirst(out: seq<SocDisk>) {
    out != [] && out[0].role == Super
  }

  /** The whole map is right, of any arguments, exactly when nothing sorts before super, super is there, and
      userdata and frp, if there, find as many disks before them as it supposes. */
  lemma WholeMapHoldsIff(ds: seq<SocDisk>, out: seq<SocDisk>)
    requires Sorted(out) && multiset(out) == multiset(ds)
    ensures SuperFirst(out) <==> Below(ds, 7) == 0 < Below(ds, 8)
    ensures SuperFirst(out) && MapHolds(out) <==>
      && Below(ds, 7) == 0 < Below(ds, 8)
      && (Has(ds, Userdata) ==> Below(ds, 8) == 1)
      && (Has(ds, Frp) ==> Below(ds, 11) <= 2 < Below(ds, 12))
  {
    AttachedAt(ds, out, 0, Super);
    MapHoldsIff(ds, out);
    if Has(ds, Userdata) {
      var i :| 0 <= i < |ds| && ds[i].role == Userdata;
      MoreBelow(ds, i);
    }
  }

  /** A disk of some role is not below that role, and is below the next. */
  lemma {:induction false} MoreBelow(ds: seq<SocDisk>, i: nat)
    requires i < |ds|
    ensures Below(ds, Priority(ds[i].role)) < Below(ds, Priority(ds[i].role) + 1)
  {
    var p := Priority(ds[i].role);
    BelowGrows(ds[..i], p);
    BelowGrows(ds[i + 1..], p);
    BelowBoth([ds[i]], ds[i + 1..], p);
    BelowBoth([ds[i]], ds[i + 1..], p + 1);
    BelowBoth(ds[..i], [ds[i]] + ds[i + 1..], p);
    BelowBoth(ds[..i], [ds[i]] + ds[i + 1..], p + 1);
    assert ds == ds[..i] + ([ds[i]] + ds[i + 1..]);
  }

  lemma {:induction false} BelowGrows(ds: seq<SocDisk>, p: nat)
    ensures Below(ds, p) <= Below(ds, p + 1)
  {
    if ds != [] {
      BelowGrows(ds[1..], p);
    }
  }

  /** One disk that sorts before super, and every `vda` entry names something on another disk. */
  lemma EarlierDiskDisplacesSuper(ds: seq<SocDisk>, out: seq<SocDisk>, i: nat)
    requires Sorted(out) && multiset(out) == multiset(ds)
    requires i < |ds| && Priority(ds[i].role) < Priority(Super)
    ensures out != [] && Priority(out[0].role) < Priority(Super) && !SuperFirst(out)
  {
    assert ds[i] in multiset(out);
    var j :| 0 <= j < |out| && out[j] == ds[i];
    FirstIsLeast(out, j);
  }
}
