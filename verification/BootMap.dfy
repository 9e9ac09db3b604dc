/** The partition map on the built line, as read off it. */
module BootMap {
  import opened Wrappers
  import opened BootOrder
  import opened BootContract
  import opened CommandLine
  import opened CommandOptions
  import opened BootHints

  // ----- Each hint's value, read off the built line

  lemma KeyDecides(h: Hint, key: string)
    requires Plain(h.key) && Plain(key)
    ensures ValueOf(TextOf(h), key) == if h.key == key then [h.value] else []
  {
    if key + "=" <= TextOf(h) {
      SameLength(h, key);
      assert h.key == TextOf(h)[..|key|] == (key + "=")[..|key|] == key;
    }
    if h.key == key {
      assert TextOf(h) == key + "=" + h.value;
    }
  }

  lemma SameLength(h: Hint, key: string)
    requires Plain(h.key) && Plain(key) && key + "=" <= TextOf(h)
    ensures |key| == |h.key|
  {
    var text := TextOf(h);
    assert text[|h.key|] == '=' && text[|key|] == (key + "=")[|key|] == '=';
    assert forall i :: 0 <= i < |h.key| ==> text[i] == h.key[i];
    assert forall i :: 0 <= i < |key| ==> text[i] == (key + "=")[i] == key[i];
  }

  predicate AllPlain(hs: seq<Hint>) {
    forall i :: 0 <= i < |hs| ==> PlainHint(hs[i])
  }

  lemma PlainTextIsWord(h: Hint)
    requires PlainHint(h)
    ensures ' ' !in TextOf(h)
  {
  }

  /** Hints of other keys leave an option's values alone. */
  lemma {:induction false} OthersAddNothing(line: string, hs: seq<Hint>, key: string)
    requires AllPlain(hs) && Plain(key) && forall i :: 0 <= i < |hs| ==> hs[i].key != key
    ensures OptionValues(AddHints(line, Texts(hs)), key) == OptionValues(line, key)
    decreases |hs|
  {
    if hs != [] {
      assert Texts(hs)[1..] == Texts(hs[1..]) && Texts(hs)[0] == TextOf(hs[0]);
      PlainTextIsWord(hs[0]);
      AddedValues(line, TextOf(hs[0]), key);
      KeyDecides(hs[0], key);
      OthersAddNothing(AddHint(line, TextOf(hs[0])), hs[1..], key);
    }
  }

  /** One hint among others of other keys adds its value, unless its text was on the line. */
  lemma {:induction false} OneAddsItsValue(line: string, hs: seq<Hint>, k: nat)
    requires AllPlain(hs) && Separate(Texts(hs)) && k < |hs|
    requires forall i :: 0 <= i < |hs| && i != k ==> hs[i].key != hs[k].key
    ensures OptionValues(AddHints(line, Texts(hs)), hs[k].key)
         == OptionValues(line, hs[k].key) + if Contains(line, TextOf(hs[k])) then [] else [hs[k].value]
    decreases |hs|
  {
    var key, first, rest := hs[k].key, TextOf(hs[0]), hs[1..];
    assert Texts(hs)[1..] == Texts(rest) && Texts(hs)[0] == first;
    PlainTextIsWord(hs[0]);
    AddedValues(line, first, key);
    KeyDecides(hs[0], key);
    assert forall i :: 0 <= i < |rest| ==> rest[i] == hs[i + 1];
    if k == 0 {
      OthersAddNothing(AddHint(line, first), rest, key);
    } else {
      assert Texts(hs)[k] == TextOf(hs[k]) && IsWord(Texts(hs)[k]) && !Contains(Texts(hs)[0], Texts(hs)[k]);
      OtherHintsKeep(line, first, TextOf(hs[k]));
      SeparateRest(hs);
      OneAddsItsValue(AddHint(line, first), rest, k - 1);
    }
  }

  lemma SeparateRest(hs: seq<Hint>)
    requires hs != [] && Separate(Texts(hs))
    ensures Separate(Texts(hs[1..]))
  {
    var all, rest := Texts(hs), Texts(hs[1..]);
    assert forall i :: 0 <= i < |rest| ==> rest[i] == all[i + 1];
  }

  lemma HintsArePlain(soc: SoCDescriptor)
    requires IsDescribed(soc)
    ensures AllPlain(AllHints(soc))
  {
    forall i | 0 <= i < |AllHints(soc)|
      ensures PlainHint(AllHints(soc)[i])
    {
      HintHasKey(soc, i);
      PlainKeys(i);
      PlainValues(soc, i);
    }
  }

  lemma KeysDiffer(soc: SoCDescriptor, i: nat, j: nat)
    requires i < |AllHints(soc)| && j < |AllHints(soc)| && i != j
    ensures AllHints(soc)[i].key != AllHints(soc)[j].key
  {
    HintHasKey(soc, i);
    HintHasKey(soc, j);
    KeysApart(i, j);
  }

  lemma BuiltAtOnce(args: string, soc: SoCDescriptor)
    ensures CmdlineFor(args, soc) == AddHints(args, Texts(AllHints(soc)))
  {
    assert Texts(AllHints(soc)) == Texts(HintsOf(soc)) + Texts(MapHint(soc));
    AddBoth(args, Texts(HintsOf(soc)), Texts(MapHint(soc)));
  }

  /** Whatever the disks and the line given: the built line gives each of the contract's options the values it had
      and then the contract's, which is left out exactly when its text occurred in the line given. */
  lemma BuiltValues(args: string, soc: SoCDescriptor, k: nat)
    requires IsDescribed(soc) && k < |AllHints(soc)|
    ensures var h := AllHints(soc)[k];
      OptionValues(CmdlineFor(args, soc), h.key)
      == OptionValues(args, h.key) + if Contains(args, TextOf(h)) then [] else [h.value]
  {
    BuiltAtOnce(args, soc);
    HintsArePlain(soc);
    HintsAreSeparate(soc);
    forall i | 0 <= i < |AllHints(soc)| && i != k
      ensures AllHints(soc)[i].key != AllHints(soc)[k].key
    {
      KeysDiffer(soc, i, k);
    }
    OneAddsItsValue(args, AllHints(soc), k);
  }

  // ----- What makes a partition map right

  predicate IsDigits(s: string) { forall i :: 0 <= i < |s| ==> '0' <= s[i] <= '9' }

  /** `vdX,name`: the disk attached in place X, counted in letters, has the role of that name.  `vdXn,name`: a
      partition of the disk in place X, which has to be the first and the super disk. */
  predicate EntryIsRight(entry: string, disks: seq<SocDisk>) {
    match SplitOnce(entry, ',')
    case None => false
    case Some(parts) => DeviceIsRight(parts.0, parts.1, disks)
  }

  predicate DeviceIsRight(device: string, name: string, disks: seq<SocDisk>) {
    && |device| >= 3 && device[0] == 'v' && device[1] == 'd' && 'a' <= device[2] <= 'z'
    && var at := device[2] as int - 'a' as int;
      && at < |disks| && IsDigits(device[3..])
      && if |device| == 3 then disks[at].role == FromName(name) && FromName(name) != Other
         else at == 0 && disks[at].role == Super
  }

  /** Every entry of the map is right. */
  predicate MapIsRight(value: string, disks: seq<SocDisk>) {
    forall i :: 0 <= i < |Split(value, ';')| ==> EntryIsRight(Split(value, ';')[i], disks)
  }

  // ----- When the contract's map is right

  lemma {:induction false} SplitJoined(xs: seq<string>, c: char)
    requires xs != [] && forall i :: 0 <= i < |xs| ==> c !in xs[i]
    ensures Split(Join(xs, [c]), c) == xs
  {
    SplitNone(xs[0], c);
    if |xs| > 1 {
      SplitJoined(xs[1..], c);
      SplitBoth(xs[0], c, Join(xs[1..], [c]));
      assert [xs[0]] + xs[1..] == xs;
    }
  }

  lemma EntrySplits(device: string, name: string, disks: seq<SocDisk>)
    requires ',' !in device
    ensures EntryIsRight(device + "," + name, disks) <==> DeviceIsRight(device, name, disks)
  {
    SplitOfLabelled(device, ',', name);
  }

  /** A partition entry of the first disk is right exactly when the super disk is attached first. */
  lemma PartitionEntry(entry: string, n: nat, disks: seq<SocDisk>)
    requires 4 <= n < |entry| && entry[0] == 'v' && entry[1] == 'd' && entry[2] == 'a' && entry[n] == ','
    requires forall i :: 3 <= i < n ==> '0' <= entry[i] <= '9'
    ensures EntryIsRight(entry, disks) <==> SuperFirst(disks)
  {
    var device, name := entry[..n], entry[n + 1..];
    assert entry == device + "," + name;
    EntrySplits(device, name, disks);
  }

  lemma FixedEntryShape(i: nat, entry: string)
    requires i < 10 && entry == FIXED_ENTRIES[i]
    ensures |entry| > 6 && entry[0] == 'v' && entry[1] == 'd' && entry[2] == 'a'
    ensures '0' <= entry[3] <= '9' && if i < 9 then entry[4] == ',' else '0' <= entry[4] <= '9' && entry[5] == ','
  {
  }

  lemma NoSemicolons(i: nat)
    requires i < 10
    ensures ';' !in FIXED_ENTRIES[i]
  {
  }

  lemma FixedEntry(i: nat, entry: string, disks: seq<SocDisk>)
    requires i < 10 && entry == FIXED_ENTRIES[i]
    ensures ';' !in entry && (EntryIsRight(entry, disks) <==> SuperFirst(disks))
  {
    NoSemicolons(i);
    FixedEntryShape(i, entry);
    PartitionEntry(entry, if i < 9 then 4 else 5, disks);
  }

  /** A whole-disk entry is right exactly when a disk of the role it names is attached in its place. */
  lemma WholeDisk(entry: string, device: string, name: string, disks: seq<SocDisk>)
    requires |device| == 3 && device[0] == 'v' && device[1] == 'd' && 'a' <= device[2] <= 'z' && ',' !in device
    requires entry == device + "," + name && FromName(name) != Other
    ensures var at := device[2] as int - 'a' as int;
      EntryIsRight(entry, disks) <==> at < |disks| && disks[at].role == FromName(name)
  {
    EntrySplits(device, name, disks);
  }

  lemma UserdataEntry(entry: string, disks: seq<SocDisk>)
    requires entry == "vdb,userdata"
    ensures ';' !in entry
    ensures EntryIsRight(entry, disks) <==> |disks| > 1 && disks[1].role == Userdata
  {
    RolesOfNames();
    WholeDisk(entry, "vdb", "userdata", disks);
  }

  lemma FrpEntry(entry: string, disks: seq<SocDisk>)
    requires entry == "vdc,frp"
    ensures ';' !in entry
    ensures EntryIsRight(entry, disks) <==> |disks| > 2 && disks[2].role == Frp
  {
    RolesOfNames();
    WholeDisk(entry, "vdc", "frp", disks);
  }

  /** The super disk is attached first, and userdata and frp, if they have entries, second and third. */
  predicate InPlace(hasUserdata: bool, hasFrp: bool, disks: seq<SocDisk>) {
    && SuperFirst(disks)
    && (hasUserdata ==> |disks| > 1 && disks[1].role == Userdata)
    && (hasFrp ==> |disks| > 2 && disks[2].role == Frp)
  }

  predicate AllRight(entries: seq<string>, disks: seq<SocDisk>) {
    forall i :: 0 <= i < |entries| ==> EntryIsRight(entries[i], disks)
  }

  lemma AllRightBoth(a: seq<string>, b: seq<string>, disks: seq<SocDisk>)
    ensures AllRight(a + b, disks) <==> AllRight(a, disks) && AllRight(b, disks)
  {
    var both := a + b;
    assert forall i :: 0 <= i < |a| ==> both[i] == a[i];
    assert forall i :: 0 <= i < |b| ==> both[|a| + i] == b[i];
    if AllRight(a, disks) && AllRight(b, disks) {
      forall i | 0 <= i < |both|
        ensures EntryIsRight(both[i], disks)
      {
        assert both[i] == if i < |a| then a[i] else b[i - |a|];
      }
    }
  }

  lemma AllRightOne(entry: string, disks: seq<SocDisk>)
    ensures AllRight([entry], disks) <==> EntryIsRight(entry, disks)
  {
    assert [entry][0] == entry;
  }

  lemma FixedRight(disks: seq<SocDisk>)
    ensures AllRight(FIXED_ENTRIES, disks) <==> SuperFirst(disks)
    ensures forall i :: 0 <= i < |FIXED_ENTRIES| ==> ';' !in FIXED_ENTRIES[i]
  {
    FixedEntry(0, FIXED_ENTRIES[0], disks);
    forall i | 0 <= i < |FIXED_ENTRIES|
      ensures ';' !in FIXED_ENTRIES[i] && (EntryIsRight(FIXED_ENTRIES[i], disks) <==> SuperFirst(disks))
    {
      FixedEntry(i, FIXED_ENTRIES[i], disks);
    }
  }

  lemma AllRightThree(a: seq<string>, b: seq<string>, c: seq<string>, disks: seq<SocDisk>)
    ensures AllRight(a + b + c, disks) <==> AllRight(a, disks) && AllRight(b, disks) && AllRight(c, disks)
  {
    AllRightBoth(a, b, disks);
    AllRightBoth(a + b, c, disks);
  }

  lemma DisksRight(userdata: seq<string>, frp: seq<string>, hasUserdata: bool, hasFrp: bool, disks: seq<SocDisk>)
    requires userdata == (if hasUserdata then ["vdb,userdata"] else []) && frp == (if hasFrp then ["vdc,frp"] else [])
    ensures AllRight(userdata, disks) <==> (hasUserdata ==> |disks| > 1 && disks[1].role == Userdata)
    ensures AllRight(frp, disks) <==> (hasFrp ==> |disks| > 2 && disks[2].role == Frp)
    ensures (forall i :: 0 <= i < |userdata| ==> ';' !in userdata[i]) && (forall i :: 0 <= i < |frp| ==> ';' !in frp[i])
  {
    UserdataEntry("vdb,userdata", disks);
    FrpEntry("vdc,frp", disks);
    AllRightOne("vdb,userdata", disks);
    AllRightOne("vdc,frp", disks);
  }

  lemma EntriesRight(entries: seq<string>, hasUserdata: bool, hasFrp: bool, disks: seq<SocDisk>)
    requires entries == MapEntries(hasUserdata, hasFrp)
    ensures entries != [] && forall i :: 0 <= i < |entries| ==> ';' !in entries[i]
    ensures AllRight(entries, disks) <==> InPlace(hasUserdata, hasFrp, disks)
  {
    var userdata, frp := if hasUserdata then ["vdb,userdata"] else [], if hasFrp then ["vdc,frp"] else [];
    FixedRight(disks);
    DisksRight(userdata, frp, hasUserdata, hasFrp, disks);
    AllRightThree(FIXED_ENTRIES, userdata, frp, disks);
  }

  lemma MapIsRightIff(hasUserdata: bool, hasFrp: bool, disks: seq<SocDisk>)
    ensures MapIsRight(PartitionMap(hasUserdata, hasFrp).value, disks) <==> InPlace(hasUserdata, hasFrp, disks)
  {
    EntriesRight(MapEntries(hasUserdata, hasFrp), hasUserdata, hasFrp, disks);
    SplitJoined(MapEntries(hasUserdata, hasFrp), ';');
  }

  /** The map a contract makes, by the counts of its disks. */
  lemma MapByCounts(disks: seq<SocDisk>, ds: seq<SocDisk>)
    requires Sorted(disks) && multiset(disks) == multiset(ds)
    ensures MapIsRight(PartitionMap(Has(disks, Userdata), Has(disks, Frp)).value, disks) <==>
      && Below(ds, 7) == 0 < Below(ds, 8)
      && (Has(ds, Userdata) ==> Below(ds, 8) == 1)
      && (Has(ds, Frp) ==> Below(ds, 11) <= 2 < Below(ds, 12))
  {
    MapIsRightIff(Has(disks, Userdata), Has(disks, Frp), disks);
    WholeMapHoldsIff(ds, disks);
  }

  /** On a line that does not mention the option, the built line has one partition map if some disk has a role and
      none otherwise; and the map is right exactly when super is there and nothing sorts before it, and userdata and
      frp, if there, find one and two disks before them. */
  lemma BuiltMapIsRightIff(args: string, soc: SoCDescriptor, ds: seq<SocDisk>) returns (maps: seq<string>)
    requires IsDescribed(soc) && Sorted(soc.disks) && multiset(soc.disks) == multiset(ds)
    requires !Contains(args, "androidboot.partition_map")
    ensures maps == OptionValues(CmdlineFor(args, soc), "androidboot.partition_map")
    ensures (forall i :: 0 <= i < |ds| ==> ds[i].role == Other) ==> maps == []
    ensures (exists i :: 0 <= i < |ds| && ds[i].role != Other) ==>
      && |maps| == 1
      && (MapIsRight(maps[0], soc.disks) <==>
            && Below(ds, 7) == 0 < Below(ds, 8)
            && (Has(ds, Userdata) ==> Below(ds, 8) == 1)
            && (Has(ds, Frp) ==> Below(ds, 11) <= 2 < Below(ds, 12)))
  {
    maps := BuiltMap(args, soc);
    SomeRole(soc.disks, ds);
    MapByCounts(soc.disks, ds);
  }

  lemma BuiltMap(args: string, soc: SoCDescriptor) returns (maps: seq<string>)
    requires IsDescribed(soc) && !Contains(args, "androidboot.partition_map")
    ensures maps == OptionValues(CmdlineFor(args, soc), "androidboot.partition_map")
    ensures maps == if UsesPartitionMap(soc.disks) then [PartitionMap(Has(soc.disks, Userdata), Has(soc.disks, Frp)).value] else []
  {
    maps := OptionValues(CmdlineFor(args, soc), "androidboot.partition_map");
    AbsentKey(args, "androidboot.partition_map");
    if UsesPartitionMap(soc.disks) {
      MapOnTheLine(args, soc);
    } else {
      NoMapOnTheLine(args, soc);
    }
  }

  /** One `super=`, one `userdata=` and one `frp=` argument anywhere among unlabelled ones: the map on the line is
      right, in whatever order the arguments come. */
  lemma CanonicalMapIsRight(args: string, specs: seq<string>, s: nat, u: nat, f: nat, soc: SoCDescriptor) returns (maps: seq<string>)
    requires s < |specs| && u < |specs| && f < |specs| && s != u && u != f && s != f
    requires Labels(specs[s], "super") && Labels(specs[u], "userdata") && Labels(specs[f], "frp")
    requires forall i :: 0 <= i < |specs| && i != s && i != u && i != f ==> Unlabelled(specs[i])
    requires IsDescribed(soc) && Sorted(soc.disks) && multiset(soc.disks) == multiset(DisksOf(specs))
    requires !Contains(args, "androidboot.partition_map")
    ensures maps == OptionValues(CmdlineFor(args, soc), "androidboot.partition_map")
    ensures |maps| == 1 && MapIsRight(maps[0], soc.disks)
  {
    maps := BuiltMap(args, soc);
    CanonicalArguments(specs, s, u, f, soc.disks);
    MapIsRightIff(Has(soc.disks, Userdata), Has(soc.disks, Frp), soc.disks);
  }

  /** With a single argument, `userdata=<path>`, the map on the line is wrong. */
  lemma UserdataAloneMapIsWrong(args: string, path: string, soc: SoCDescriptor) returns (maps: seq<string>)
    requires IsDescribed(soc) && Sorted(soc.disks) && multiset(soc.disks) == multiset(DisksOf(["userdata=" + path]))
    requires !Contains(args, "androidboot.partition_map")
    ensures maps == OptionValues(CmdlineFor(args, soc), "androidboot.partition_map")
    ensures |maps| == 1 && !MapIsRight(maps[0], soc.disks)
  {
    maps := BuiltMap(args, soc);
    UserdataAloneIsMisnamed(path, soc.disks);
    MapIsRightIff(Has(soc.disks, Userdata), Has(soc.disks, Frp), soc.disks);
  }

  // ----- Which roles the map names

  function NameIn(entry: string): string {
    match SplitOnce(entry, ',')
    case None => ""
    case Some(parts) => parts.1
  }

  /** How many entries name the role. */
  function Naming(entries: seq<string>, r: DiskRole): nat {
    if entries == [] then 0 else (if FromName(NameIn(entries[0])) == r then 1 else 0) + Naming(entries[1..], r)
  }

  lemma {:induction false} NamingBoth(a: seq<string>, b: seq<string>, r: DiskRole)
    ensures Naming(a + b, r) == Naming(a, r) + Naming(b, r)
  {
    if a == [] {
      assert a + b == b;
    } else {
      assert (a + b)[0] == a[0] && (a + b)[1..] == a[1..] + b;
      NamingBoth(a[1..], b, r);
    }
  }

  lemma NameBehind(entry: string, n: nat, name: string)
    requires n < |entry| && entry[n] == ',' && (forall i :: 0 <= i < n ==> entry[i] != ',') && entry[n + 1..] == name
    ensures NameIn(entry) == name
  {
    assert entry == entry[..n] + "," + name;
    SplitOfLabelled(entry[..n], ',', name);
  }

  lemma NamingOne(entry: string, r: DiskRole, role: DiskRole)
    requires FromName(NameIn(entry)) == role
    ensures Naming([entry], r) == if r == role then 1 else 0
  {
    assert [entry][1..] == [];
  }

  lemma FrontNames(i: nat, entry: string)
    requires i < 5 && entry == FIXED_ENTRIES[i]
    ensures entry[4] == ',' && (forall j :: 0 <= j < 4 ==> entry[j] != ',')
    ensures entry[5..] == if i == 0 then "boot_a" else if i == 1 then "init_boot_a" else if i == 2 then "metadata"
                          else if i == 3 then "super" else "vbmeta_a"
  {
  }

  lemma MiddleNames(i: nat, entry: string)
    requires 5 <= i < 7 && entry == FIXED_ENTRIES[i]
    ensures entry[4] == ',' && (forall j :: 0 <= j < 4 ==> entry[j] != ',')
    ensures entry[5..] == if i == 5 then "vbmeta_system_a" else "vbmeta_system_dlkm_a"
  {
  }

  lemma BackNames(i: nat, entry: string)
    requires 7 <= i < 9 && entry == FIXED_ENTRIES[i]
    ensures entry[4] == ',' && (forall j :: 0 <= j < 4 ==> entry[j] != ',')
    ensures entry[5..] == if i == 7 then "vbmeta_vendor_dlkm_a" else "vendor_boot_a"
  {
  }

  lemma LastName(entry: string)
    requires entry == FIXED_ENTRIES[9]
    ensures entry[5] == ',' && (forall j :: 0 <= j < 5 ==> entry[j] != ',') && entry[6..] == "misc"
  {
  }

  function FixedRole(i: nat): DiskRole
    requires i < 10
  {
    if i == 0 then Boot else if i == 1 then InitBoot else if i == 2 then Metadata else if i == 3 then Super
    else if i == 4 then Vbmeta else if i == 5 then VbmetaSystem else if i == 6 then VbmetaSystemDlkm
    else if i == 7 then VbmetaVendorDlkm else if i == 8 then VendorBoot else Misc
  }

  /** The place of a role's partition in the map, if it has one. */
  function Slot(r: DiskRole): nat {
    match r
    case Boot => 0
    case InitBoot => 1
    case Metadata => 2
    case Super => 3
    case Vbmeta => 4
    case VbmetaSystem => 5
    case VbmetaSystemDlkm => 6
    case VbmetaVendorDlkm => 7
    case VendorBoot => 8
    case Misc => 9
    case _ => 10
  }

  lemma RoleAtSlot(i: nat, r: DiskRole)
    requires i < 10
    ensures FixedRole(i) == r <==> Slot(r) == i
  {
  }

  lemma RolesOfPartitions()
    ensures FromName("boot_a") == Boot && FromName("init_boot_a") == InitBoot && FromName("metadata") == Metadata
    ensures FromName("vbmeta_a") == Vbmeta && FromName("vbmeta_system_a") == VbmetaSystem
    ensures FromName("vbmeta_system_dlkm_a") == VbmetaSystemDlkm && FromName("vbmeta_vendor_dlkm_a") == VbmetaVendorDlkm
    ensures FromName("vendor_boot_a") == VendorBoot && FromName("misc") == Misc
  {
  }

  lemma FrontRoles(i: nat, entry: string)
    requires i < 5 && entry == FIXED_ENTRIES[i]
    ensures FromName(entry[5..]) == FixedRole(i)
  {
    RolesOfNames();
    RolesOfPartitions();
    FrontNames(i, entry);
  }

  lemma MiddleRoles(i: nat, entry: string)
    requires 5 <= i < 7 && entry == FIXED_ENTRIES[i]
    ensures FromName(entry[5..]) == FixedRole(i)
  {
    RolesOfPartitions();
    MiddleNames(i, entry);
  }

  lemma BackRoles(i: nat, entry: string)
    requires 7 <= i < 9 && entry == FIXED_ENTRIES[i]
    ensures FromName(entry[5..]) == FixedRole(i)
  {
    RolesOfPartitions();
    BackNames(i, entry);
  }

  lemma CommaAt(i: nat, entry: string)
    requires i < 9 && entry == FIXED_ENTRIES[i]
    ensures |entry| > 5 && entry[4] == ',' && forall j :: 0 <= j < 4 ==> entry[j] != ','
  {
  }

  lemma FixedNames(i: nat, entry: string)
    requires i < 10 && entry == FIXED_ENTRIES[i]
    ensures FromName(NameIn(entry)) == FixedRole(i)
  {
    if i == 9 {
      RolesOfPartitions();
      LastName(entry);
      NameBehind(entry, 5, entry[6..]);
    } else {
      CommaAt(i, entry);
      NameBehind(entry, 4, entry[5..]);
      if i < 5 {
        FrontRoles(i, entry);
      } else if i < 7 {
        MiddleRoles(i, entry);
      } else {
        BackRoles(i, entry);
      }
    }
  }

  lemma {:induction false} NamingNone(entries: seq<string>, r: DiskRole)
    requires forall i :: 0 <= i < |entries| ==> FromName(NameIn(entries[i])) != r
    ensures Naming(entries, r) == 0
  {
    if entries != [] {
      NamingNone(entries[1..], r);
    }
  }

  lemma {:induction false} NamingOnly(entries: seq<string>, k: nat, r: DiskRole)
    requires k < |entries|
    requires forall i :: 0 <= i < |entries| ==> (FromName(NameIn(entries[i])) == r <==> i == k)
    ensures Naming(entries, r) == 1
  {
    if k == 0 {
      NamingNone(entries[1..], r);
    } else {
      NamingOnly(entries[1..], k - 1, r);
    }
  }

  lemma FixedSlots(entries: seq<string>, r: DiskRole)
    requires entries == FIXED_ENTRIES
    ensures |entries| == 10 && forall i :: 0 <= i < 10 ==> (FromName(NameIn(entries[i])) == r <==> i == Slot(r))
  {
    forall i | 0 <= i < 10
      ensures FromName(NameIn(entries[i])) == r <==> i == Slot(r)
    {
      FixedNames(i, entries[i]);
      RoleAtSlot(i, r);
    }
  }

  lemma NamingBySlot(entries: seq<string>, r: DiskRole)
    requires |entries| == 10 && forall i :: 0 <= i < 10 ==> (FromName(NameIn(entries[i])) == r <==> i == Slot(r))
    ensures Naming(entries, r) == if Slot(r) < 10 then 1 else 0
  {
    if Slot(r) < 10 {
      NamingOnly(entries, Slot(r), r);
    } else {
      NamingNone(entries, r);
    }
  }

  lemma NamingFixed(entries: seq<string>, r: DiskRole)
    requires entries == FIXED_ENTRIES
    ensures Naming(entries, r) == if r == Userdata || r == Frp || r == Other then 0 else 1
  {
    FixedSlots(entries, r);
    NamingBySlot(entries, r);
  }

  lemma NamingOptional(entry: string, device: string, name: string, present: bool, r: DiskRole)
    requires ',' !in device && entry == device + "," + name
    ensures Naming(if present then [entry] else [], r) == if present && FromName(name) == r then 1 else 0
  {
    SplitOfLabelled(device, ',', name);
    NamingOne(entry, r, FromName(name));
  }

  lemma NamingThree(a: seq<string>, b: seq<string>, c: seq<string>, r: DiskRole)
    ensures Naming(a + b + c, r) == Naming(a, r) + Naming(b, r) + Naming(c, r)
  {
    NamingBoth(a, b, r);
    NamingBoth(a + b, c, r);
  }

  lemma NamingDisks(userdata: seq<string>, frp: seq<string>, hasUserdata: bool, hasFrp: bool, r: DiskRole)
    requires userdata == (if hasUserdata then ["vdb,userdata"] else []) && frp == (if hasFrp then ["vdc,frp"] else [])
    ensures Naming(userdata, r) == if hasUserdata && r == Userdata then 1 else 0
    ensures Naming(frp, r) == if hasFrp && r == Frp then 1 else 0
  {
    RolesOfNames();
    NamingOptional("vdb,userdata", "vdb", "userdata", hasUserdata, r);
    NamingOptional("vdc,frp", "vdc", "frp", hasFrp, r);
  }

  lemma NamingEntries(entries: seq<string>, hasUserdata: bool, hasFrp: bool, r: DiskRole)
    requires entries == MapEntries(hasUserdata, hasFrp)
    ensures Naming(entries, r) ==
      (if r == Userdata || r == Frp || r == Other then 0 else 1)
      + (if hasUserdata && r == Userdata then 1 else 0) + (if hasFrp && r == Frp then 1 else 0)
  {
    var userdata, frp := if hasUserdata then ["vdb,userdata"] else [], if hasFrp then ["vdc,frp"] else [];
    NamingFixed(FIXED_ENTRIES, r);
    NamingDisks(userdata, frp, hasUserdata, hasFrp, r);
    NamingThree(FIXED_ENTRIES, userdata, frp, r);
  }

  /** The map on the built line has one entry for every role, but for userdata and frp only if a disk has that role. */
  lemma BuiltMapNamesRoles(args: string, soc: SoCDescriptor, r: DiskRole) returns (maps: seq<string>)
    requires IsDescribed(soc) && UsesPartitionMap(soc.disks) && !Contains(args, "androidboot.partition_map") && r != Other
    ensures maps == OptionValues(CmdlineFor(args, soc), "androidboot.partition_map") && |maps| == 1
    ensures Naming(Split(maps[0], ';'), r) == if (r == Userdata || r == Frp) && !Has(soc.disks, r) then 0 else 1
  {
    maps := BuiltMap(args, soc);
    var hasUserdata, hasFrp := Has(soc.disks, Userdata), Has(soc.disks, Frp);
    EntriesRight(MapEntries(hasUserdata, hasFrp), hasUserdata, hasFrp, soc.disks);
    SplitJoined(MapEntries(hasUserdata, hasFrp), ';');
    NamingEntries(MapEntries(hasUserdata, hasFrp), hasUserdata, hasFrp, r);
  }

  // ----- Which partitions the map names

  /** The partitions of the super disk, in the order in which the script that builds it numbers them from one. */
  const PARTITION_NAMES := [
    "boot_a", "init_boot_a", "metadata", "super", "vbmeta_a", "vbmeta_system_a", "vbmeta_system_dlkm_a",
    "vbmeta_vendor_dlkm_a", "vendor_boot_a", "misc"]

  function Decimal(n: nat): string {
    if n < 10 then [('0' as int + n) as char] else Decimal(n / 10) + Decimal(n % 10)
  }

  function Numbered(n: nat, name: string): string {
    "vda" + Decimal(n) + "," + name
  }

  lemma FrontNumbers(i: nat, name: string)
    requires i < 5 && name == PARTITION_NAMES[i]
    ensures FIXED_ENTRIES[i] == Numbered(i + 1, name)
  {
    FrontNames(i, FIXED_ENTRIES[i]);
    FixedEntryShape(i, FIXED_ENTRIES[i]);
    DigitIs(i, FIXED_ENTRIES[i]);
    NumberedIs(FIXED_ENTRIES[i], i + 1, name);
  }

  lemma MiddleNumbers(i: nat, name: string)
    requires 5 <= i < 7 && name == PARTITION_NAMES[i]
    ensures FIXED_ENTRIES[i] == Numbered(i + 1, name)
  {
    MiddleNames(i, FIXED_ENTRIES[i]);
    FixedEntryShape(i, FIXED_ENTRIES[i]);
    DigitIs(i, FIXED_ENTRIES[i]);
    NumberedIs(FIXED_ENTRIES[i], i + 1, name);
  }

  lemma BackNumbers(i: nat, name: string)
    requires 7 <= i < 9 && name == PARTITION_NAMES[i]
    ensures FIXED_ENTRIES[i] == Numbered(i + 1, name)
  {
    BackNames(i, FIXED_ENTRIES[i]);
    FixedEntryShape(i, FIXED_ENTRIES[i]);
    DigitIs(i, FIXED_ENTRIES[i]);
    NumberedIs(FIXED_ENTRIES[i], i + 1, name);
  }

  lemma DigitIs(i: nat, entry: string)
    requires i < 9 && entry == FIXED_ENTRIES[i]
    ensures |entry| > 3 && entry[3] == ('0' as int + i + 1) as char
  {
  }

  lemma NumberedIs(entry: string, n: nat, name: string)
    requires n < 10 && |entry| > 5 && entry[0] == 'v' && entry[1] == 'd' && entry[2] == 'a'
    requires entry[3] == ('0' as int + n) as char && entry[4] == ',' && entry[5..] == name
    ensures entry == Numbered(n, name)
  {
    assert Decimal(n) == [entry[3]];
    assert entry == "vda" + [entry[3]] + "," + entry[5..];
  }

  lemma TenthNumber(entry: string)
    requires entry == FIXED_ENTRIES[9]
    ensures entry == Numbered(10, PARTITION_NAMES[9])
  {
    assert Decimal(1) == "1" && Decimal(0) == "0" && Decimal(10) == "10";
  }

  lemma PartitionNumbers(i: nat)
    requires i < 10
    ensures FIXED_ENTRIES[i] == Numbered(i + 1, PARTITION_NAMES[i])
  {
    if i < 5 {
      FrontNumbers(i, PARTITION_NAMES[i]);
    } else if i < 7 {
      MiddleNumbers(i, PARTITION_NAMES[i]);
    } else if i < 9 {
      BackNumbers(i, PARTITION_NAMES[i]);
    } else {
      TenthNumber(FIXED_ENTRIES[9]);
    }
  }

  lemma MapStartsWithPartitions(entries: seq<string>, hasUserdata: bool, hasFrp: bool, i: nat)
    requires i < 10 && entries == MapEntries(hasUserdata, hasFrp)
    ensures i < |entries| && entries[i] == Numbered(i + 1, PARTITION_NAMES[i])
  {
    assert |FIXED_ENTRIES| == 10;
    PartitionNumbers(i);
  }

  /** The first ten entries of the map on the built line give each partition of the super disk the number under
      which the script that builds the disk creates it. */
  lemma BuiltMapNumbersPartitions(args: string, soc: SoCDescriptor, i: nat) returns (maps: seq<string>)
    requires IsDescribed(soc) && UsesPartitionMap(soc.disks) && !Contains(args, "androidboot.partition_map")
    requires i < |PARTITION_NAMES|
    ensures maps == OptionValues(CmdlineFor(args, soc), "androidboot.partition_map") && |maps| == 1
    ensures |Split(maps[0], ';')| > i && Split(maps[0], ';')[i] == "vda" + Decimal(i + 1) + "," + PARTITION_NAMES[i]
  {
    maps := BuiltMap(args, soc);
    var hasUserdata, hasFrp := Has(soc.disks, Userdata), Has(soc.disks, Frp);
    EntriesRight(MapEntries(hasUserdata, hasFrp), hasUserdata, hasFrp, soc.disks);
    SplitJoined(MapEntries(hasUserdata, hasFrp), ';');
    MapStartsWithPartitions(MapEntries(hasUserdata, hasFrp), hasUserdata, hasFrp, i);
  }

  lemma SomeRole(a: seq<SocDisk>, b: seq<SocDisk>)
    requires multiset(a) == multiset(b)
    ensures UsesPartitionMap(a) <==> !(forall i :: 0 <= i < |b| ==> b[i].role == Other)
  {
    if UsesPartitionMap(a) {
      var i :| 0 <= i < |a| && a[i].role != Other;
      assert a[i] in multiset(b);
    }
    if i :| 0 <= i < |b| && b[i].role != Other {
      assert b[i] in multiset(a);
    }
  }

  lemma MapOnTheLine(args: string, soc: SoCDescriptor)
    requires IsDescribed(soc) && UsesPartitionMap(soc.disks) && !Contains(args, "androidboot.partition_map")
    ensures OptionValues(CmdlineFor(args, soc), "androidboot.partition_map")
         == OptionValues(args, "androidboot.partition_map") + [PartitionMap(Has(soc.disks, Userdata), Has(soc.disks, Frp)).value]
  {
    var h := PartitionMap(Has(soc.disks, Userdata), Has(soc.disks, Frp));
    assert AllHints(soc)[21] == h;
    BuiltValues(args, soc, 21);
    if Contains(args, TextOf(h)) {
      PrefixOccurs(args, TextOf(h), h.key);
    }
  }

  lemma NoMapOnTheLine(args: string, soc: SoCDescriptor)
    requires IsDescribed(soc) && !UsesPartitionMap(soc.disks)
    ensures OptionValues(CmdlineFor(args, soc), "androidboot.partition_map") == OptionValues(args, "androidboot.partition_map")
  {
    BuiltAtOnce(args, soc);
    HintsArePlain(soc);
    PlainRestKeys();
    forall i | 0 <= i < |AllHints(soc)|
      ensures AllHints(soc)[i].key != "androidboot.partition_map"
    {
      HintHasKey(soc, i);
      KeysApart(i, 21);
    }
    OthersAddNothing(args, AllHints(soc), "androidboot.partition_map");
  }
}
