/** From `--disk` arguments to the boot contract: the disks, the boot devices and the command line. */
module BootContract {
  import opened Wrappers
  import opened BootOrder

  // ----- Disk arguments

  /** Splits at the first `c`. */
  function SplitOnce(s: string, c: char): Option<(string, string)> {
    if s == [] then None
    else if s[0] == c then Some(([], s[1..]))
    else
      match SplitOnce(s[1..], c)
      case None => None
      case Some(parts) => Some(([s[0]] + parts.0, parts.1))
  }

  function DefaultName(i: nat): string {
    "vd" + [((97 + i % 256) % 256) as char]
  }

  function NameAndPath(i: nat, spec: string): (string, string) {
    match SplitOnce(spec, '=')
    case Some(parts) => parts
    case None =>
      match SplitOnce(spec, ':')
      case Some(parts) => parts
      case None => (DefaultName(i), spec)
  }

  predicate IsSlotted(role: DiskRole) { Priority(role) <= 6 }

  function SlottedName(name: string): string {
    if |name| >= 2 && name[|name| - 2..] == "_a" then name else name + "_a"
  }

  function DiskOf(i: nat, spec: string): SocDisk {
    var (name, path) := NameAndPath(i, spec);
    var role := FromName(name);
    SocDisk(if IsSlotted(role) then SlottedName(name) else name, path, role)
  }

  function DisksOf(specs: seq<string>): seq<SocDisk> {
    seq(|specs|, i requires 0 <= i < |specs| => DiskOf(i, specs[i]))
  }

  method FromDiskSpecs(specs: seq<string>) returns (disks: seq<SocDisk>)
    ensures disks == DisksOf(specs)
  {
    disks := [];
    for i := 0 to |specs|
      invariant |disks| == i && forall j :: 0 <= j < i ==> disks[j] == DiskOf(j, specs[j])
    {
      var disk := ParseSpec(i, specs[i]);
      disks := disks + [disk];
    }
  }

  method ParseSpec(i: nat, spec: string) returns (disk: SocDisk)
    ensures disk == DiskOf(i, spec)
  {
    var (name, path) := NameAndPath(i, spec);
    var role := FromName(name);
    match role {
      case Boot | InitBoot | VendorBoot | Vbmeta | VbmetaSystem | VbmetaVendorDlkm | VbmetaSystemDlkm =>
        name := SlottedName(name);
      case _ =>
    }
    disk := SocDisk(name, path, role);
  }

  /** The split is at the first separator, and none is found only where there is none. */
  lemma {:induction false} SplitsAtTheFirst(s: string, c: char)
    ensures SplitOnce(s, c) == None <==> c !in s
    ensures SplitOnce(s, c).Some? ==>
      var (name, path) := SplitOnce(s, c).value; c !in name && s == name + [c] + path
  {
    if s != [] && s[0] != c {
      SplitsAtTheFirst(s[1..], c);
      assert s == [s[0]] + s[1..];
    }
  }

  lemma {:induction false} SplitOfLabelled(name: string, c: char, path: string)
    requires c !in name
    ensures SplitOnce(name + [c] + path, c) == Some((name, path))
  {
    var s := name + [c] + path;
    if name == [] {
      assert s[0] == c && s[1..] == path;
    } else {
      assert s[1..] == name[1..] + [c] + path;
      assert s[0] == name[0] && name[0] in name && name == [name[0]] + name[1..];
      SplitOfLabelled(name[1..], c, path);
    }
  }

  /** `name=path` gives the disk that name's role, whatever the path and the position. */
  lemma LabelDecidesRole(i: nat, name: string, path: string)
    requires '=' !in name
    ensures DiskOf(i, name + "=" + path).role == FromName(name)
    ensures DiskOf(i, name + "=" + path).path == path
  {
    SplitOfLabelled(name, '=', path);
  }

  lemma BootNames()
    ensures FromName("boot_a") == Boot && FromName("init_boot_a") == InitBoot && FromName("vendor_boot_a") == VendorBoot
  {
  }

  lemma VbmetaNames()
    ensures FromName("vbmeta_a") == Vbmeta && FromName("vbmeta_system_a") == VbmetaSystem
    ensures FromName("vbmeta_vendor_dlkm_a") == VbmetaVendorDlkm && FromName("vbmeta_system_dlkm_a") == VbmetaSystemDlkm
  {
  }

  /** The name of a role's partition in slot a. */
  function SlotName(role: DiskRole): string
    requires IsSlotted(role)
  {
    match role
    case Boot => "boot_a"
    case InitBoot => "init_boot_a"
    case VendorBoot => "vendor_boot_a"
    case Vbmeta => "vbmeta_a"
    case VbmetaSystem => "vbmeta_system_a"
    case VbmetaVendorDlkm => "vbmeta_vendor_dlkm_a"
    case VbmetaSystemDlkm => "vbmeta_system_dlkm_a"
  }

  lemma BootSlots(name: string)
    requires FromName(name) == Boot || FromName(name) == InitBoot || FromName(name) == VendorBoot
    ensures SlottedName(name) == SlotName(FromName(name))
  {
  }

  lemma VbmetaSlots(name: string)
    requires FromName(name) == Vbmeta || FromName(name) == VbmetaSystem
    ensures SlottedName(name) == SlotName(FromName(name))
  {
  }

  lemma DlkmSlots(name: string)
    requires FromName(name) == VbmetaVendorDlkm || FromName(name) == VbmetaSystemDlkm
    ensures SlottedName(name) == SlotName(FromName(name))
  {
  }

  /** A disk with a role of the boot chain is called by its slot, whether the argument named the slot or not, and
      its name still gives it that role. */
  lemma SlottedDisk(i: nat, spec: string)
    requires IsSlotted(DiskOf(i, spec).role)
    ensures DiskOf(i, spec).name == SlotName(DiskOf(i, spec).role)
    ensures FromName(DiskOf(i, spec).name) == DiskOf(i, spec).role
  {
    var name := NameAndPath(i, spec).0;
    BootNames();
    VbmetaNames();
    match FromName(name) {
      case Boot | InitBoot | VendorBoot => BootSlots(name);
      case Vbmeta | VbmetaSystem => VbmetaSlots(name);
      case VbmetaVendorDlkm | VbmetaSystemDlkm => DlkmSlots(name);
      case _ =>
    }
  }

  /** An argument without a label never takes a role, whatever its path. */
  lemma UnlabelledIsOther(i: nat, spec: string)
    requires '=' !in spec && ':' !in spec
    ensures DiskOf(i, spec).role == Other && DiskOf(i, spec).path == spec
  {
    SplitsAtTheFirst(spec, '=');
    SplitsAtTheFirst(spec, ':');
    assert DefaultName(i)[0] == 'v' && DefaultName(i)[1] == 'd' && |DefaultName(i)| == 3;
  }

  // ----- The canonical configuration

  function Count(ds: seq<SocDisk>, r: DiskRole): nat {
    if ds == [] then 0 else (if ds[0].role == r then 1 else 0) + Count(ds[1..], r)
  }

  /** One super, one userdata and one frp disk, and otherwise only disks without a role. */
  predicate Canonical(ds: seq<SocDisk>) {
    && Count(ds, Super) == 1 && Count(ds, Userdata) == 1 && Count(ds, Frp) == 1
    && OnlyCanonicalRoles(ds)
  }

  predicate OnlyCanonicalRoles(ds: seq<SocDisk>) {
    forall i :: 0 <= i < |ds| ==> ds[i].role in {Super, Userdata, Frp, Other}
  }

  lemma {:induction false} BelowCounts(ds: seq<SocDisk>)
    requires OnlyCanonicalRoles(ds)
    ensures Below(ds, 7) == 0 && Below(ds, 8) == Count(ds, Super)
    ensures Below(ds, 9) == Below(ds, 11) == Count(ds, Super) + Count(ds, Userdata)
    ensures Below(ds, 12) == Count(ds, Super) + Count(ds, Userdata) + Count(ds, Frp)
  {
    if ds != [] {
      assert ds[0].role in {Super, Userdata, Frp, Other};
      BelowCounts(ds[1..]);
    }
  }

  /** However the arguments are ordered, super is attached first, userdata second and frp third, as the
      partition map says. */
  lemma CanonicalMatchesMap(ds: seq<SocDisk>, out: seq<SocDisk>)
    requires Canonical(ds) && Sorted(out) && multiset(out) == multiset(ds)
    ensures |out| >= 3 && out[0].role == Super && out[1].role == Userdata && out[2].role == Frp
    ensures MapHolds(out)
  {
    BelowCounts(ds);
    AttachedAt(ds, out, 0, Super);
    AttachedAt(ds, out, 1, Userdata);
    AttachedAt(ds, out, 2, Frp);
  }

  lemma {:induction false} CountNone(ds: seq<SocDisk>, r: DiskRole)
    requires forall i :: 0 <= i < |ds| ==> ds[i].role != r
    ensures Count(ds, r) == 0
  {
    if ds != [] {
      CountNone(ds[1..], r);
    }
  }

  lemma {:induction false} CountOne(ds: seq<SocDisk>, k: nat, r: DiskRole)
    requires k < |ds| && ds[k].role == r && forall i :: 0 <= i < |ds| && i != k ==> ds[i].role != r
    ensures Count(ds, r) == 1
  {
    if k == 0 {
      CountNone(ds[1..], r);
    } else {
      CountOne(ds[1..], k - 1, r);
    }
  }

  predicate Labels(spec: string, name: string) { name + "=" <= spec }

  predicate Unlabelled(spec: string) { '=' !in spec && ':' !in spec }

  /** One `super=`, one `userdata=` and one `frp=` argument anywhere among unlabelled ones: the attach
      order is the map's, in whatever order the arguments come. */
  lemma CanonicalArguments(specs: seq<string>, s: nat, u: nat, f: nat, out: seq<SocDisk>)
    requires s < |specs| && u < |specs| && f < |specs| && s != u && u != f && s != f
    requires Labels(specs[s], "super") && Labels(specs[u], "userdata") && Labels(specs[f], "frp")
    requires forall i :: 0 <= i < |specs| && i != s && i != u && i != f ==> Unlabelled(specs[i])
    requires Sorted(out) && multiset(out) == multiset(DisksOf(specs))
    ensures |out| >= 3 && out[0].role == Super && out[1].role == Userdata && out[2].role == Frp
    ensures MapHolds(out)
  {
    var ds := DisksOf(specs);
    RolesOfNames();
    LabelRole(specs, s, "super");
    LabelRole(specs, u, "userdata");
    LabelRole(specs, f, "frp");
    forall i | 0 <= i < |ds| && i != s && i != u && i != f
      ensures ds[i].role == Other
    {
      UnlabelledIsOther(i, specs[i]);
    }
    OneOfEach(ds, s, u, f);
    CanonicalMatchesMap(ds, out);
  }

  lemma OneOfEach(ds: seq<SocDisk>, s: nat, u: nat, f: nat)
    requires s < |ds| && u < |ds| && f < |ds|
    requires ds[s].role == Super && ds[u].role == Userdata && ds[f].role == Frp
    requires forall i :: 0 <= i < |ds| && i != s && i != u && i != f ==> ds[i].role == Other
    ensures Canonical(ds)
  {
    CountOne(ds, s, Super);
    CountOne(ds, u, Userdata);
    CountOne(ds, f, Frp);
  }

  lemma RolesOfNames()
    ensures FromName("super") == Super && FromName("userdata") == Userdata && FromName("frp") == Frp
    ensures '=' !in "super" && '=' !in "userdata" && '=' !in "frp"
  {
  }

  lemma LabelRole(specs: seq<string>, i: nat, name: string)
    requires i < |specs| && Labels(specs[i], name) && '=' !in name
    ensures DisksOf(specs)[i].role == FromName(name)
  {
    var path := specs[i][|name| + 1..];
    assert specs[i] == name + "=" + path;
    LabelDecidesRole(i, name, path);
  }

  /** Without a super disk a lone userdata disk is attached first, and the map's `vdb` is wrong. */
  lemma WithoutSuperMapIsWrong(ds: seq<SocDisk>, out: seq<SocDisk>)
    requires OnlyCanonicalRoles(ds) && Count(ds, Super) == 0 && Count(ds, Userdata) == 1
    requires Sorted(out) && multiset(out) == multiset(ds)
    ensures |out| > 0 && out[0].role == Userdata && !MapHolds(out)
  {
    BelowCounts(ds);
    AttachedAt(ds, out, 0, Userdata);
    AttachedAt(ds, out, 1, Userdata);
    assert Has(out, Userdata);
  }

  /** The smallest such line: `--disk userdata=<path>` and nothing else. */
  lemma UserdataAloneIsMisnamed(path: string, out: seq<SocDisk>)
    requires Sorted(out) && multiset(out) == multiset(DisksOf(["userdata=" + path]))
    ensures |out| == 1 && out[0].role == Userdata && !MapHolds(out)
  {
    var specs := ["userdata=" + path];
    RolesOfNames();
    assert Labels(specs[0], "userdata");
    LabelRole(specs, 0, "userdata");
    var ds := DisksOf(specs);
    assert ds == [ds[0]];
    assert |multiset(out)| == 1;
    assert out[0] in multiset(ds);
    assert Has(out, Userdata);
  }

  // ----- Boot devices

  function DeviceHint(role: DiskRole, single: bool, hasSuper: bool): seq<string> {
    match role
    case Boot => ["vda"]
    case InitBoot => ["vdb"]
    case VendorBoot => ["vdc"]
    case Super => if single then ["vda"] else ["vdj"]
    case Userdata => if hasSuper then ["vdb"] else ["vda"]
    case Metadata => ["vdj"]
    case Misc => ["vdk"]
    case Frp => ["vdc"]
    case _ => []
  }

  function DeviceHints(ds: seq<SocDisk>, single: bool, hasSuper: bool): seq<string> {
    if ds == [] then [] else DeviceHint(ds[0].role, single, hasSuper) + DeviceHints(ds[1..], single, hasSuper)
  }

  const FIXED_DEVICES := [
    "vda_a", "vdb_a", "vdj", "vdj_a",
    "a004000.virtio_mmio", "0a004000.virtio_mmio", "a005000.virtio_mmio", "0a005000.virtio_mmio",
    "a006000.virtio_mmio", "0a006000.virtio_mmio", "a007000.virtio_mmio", "0a007000.virtio_mmio",
    "a008000.virtio_mmio", "0a008000.virtio_mmio", "a009000.virtio_mmio", "0a009000.virtio_mmio"]

  predicate UsesPartitionMap(ds: seq<SocDisk>) {
    exists i :: 0 <= i < |ds| && ds[i].role != Other
  }

  function AllDevices(ds: seq<SocDisk>): seq<string> {
    DeviceHints(ds, |ds| == 1, Has(ds, Super)) + if UsesPartitionMap(ds) then FIXED_DEVICES else []
  }

  /** Keeps the first occurrence of each device that is not in `seen`. */
  function Fresh(xs: seq<string>, seen: set<string>): seq<string> {
    if xs == [] then []
    else if xs[0] in seen then Fresh(xs[1..], seen)
    else [xs[0]] + Fresh(xs[1..], seen + {xs[0]})
  }

  /** `retain(|dev| seen.insert(dev))`. */
  method RetainFirst(xs: seq<string>) returns (kept: seq<string>)
    ensures kept == Fresh(xs, {})
  {
    kept := [];
    var seen: set<string> := {};
    for i := 0 to |xs|
      invariant Fresh(xs, {}) == kept + Fresh(xs[i..], seen)
    {
      assert xs[i..][1..] == xs[i + 1..];
      if xs[i] !in seen {
        kept := kept + [xs[i]];
        seen := seen + {xs[i]};
      }
    }
  }

  /** The same devices, each once. */
  lemma {:induction false} FreshIsExact(xs: seq<string>, seen: set<string>)
    ensures forall x :: x in Fresh(xs, seen) <==> x in xs && x !in seen
    ensures forall i, j :: 0 <= i < j < |Fresh(xs, seen)| ==> Fresh(xs, seen)[i] != Fresh(xs, seen)[j]
  {
    if xs != [] {
      if xs[0] in seen {
        FreshIsExact(xs[1..], seen);
      } else {
        FreshIsExact(xs[1..], seen + {xs[0]});
      }
    }
  }

  /** In the order of first occurrence: what comes later never disturbs what is kept. */
  lemma {:induction false} FreshKeepsOrder(xs: seq<string>, ys: seq<string>, seen: set<string>)
    ensures Fresh(xs, seen) <= Fresh(xs + ys, seen)
  {
    if xs != [] {
      assert (xs + ys)[1..] == xs[1..] + ys;
      FreshKeepsOrder(xs[1..], ys, if xs[0] in seen then seen else seen + {xs[0]});
    }
  }

  datatype SoCDescriptor = SoCDescriptor(
    slotSuffix: string, disks: seq<SocDisk>, hardware: string, bootmode: string,
    bootDevices: seq<string>, bootdevice: Option<string>, fstabSuffix: string)

  /** The fixed members, and the boot devices that go with the disks. */
  predicate IsDescribed(soc: SoCDescriptor) {
    && soc.slotSuffix == "_a" && soc.hardware == "cf" && soc.bootmode == "normal" && soc.fstabSuffix == "cf.f2fs.hctr2"
    && soc.bootDevices == Fresh(AllDevices(soc.disks), {})
    && soc.bootdevice == if AllDevices(soc.disks) == [] then None else Some(AllDevices(soc.disks)[0])
  }

  method Descriptor(disks: seq<SocDisk>) returns (soc: SoCDescriptor)
    ensures StablySorted(soc.disks, disks) && multiset(soc.disks) == multiset(disks)
    ensures IsDescribed(soc)
  {
    var sorted := SortDisks(disks);
    var devices := RetainFirst(AllDevices(sorted));
    var first := if |devices| == 0 then None else Some(devices[0]);
    soc := SoCDescriptor("_a", sorted, "cf", "normal", devices, first, "cf.f2fs.hctr2");
  }
}
