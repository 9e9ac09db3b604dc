/** The boot devices as a reader finds them on the built command line. */
module BootDevices {
  import opened Wrappers
  import opened BootOrder
  import opened BootContract
  import opened CommandLine
  import opened CommandOptions
  import opened BootHints
  import opened BootMap

  // ----- Which devices a contract lists

  predicate Gives(role: DiskRole, single: bool, hasSuper: bool, d: string) {
    d in DeviceHint(role, single, hasSuper)
  }

  lemma {:induction false} GivenBySomeDisk(ds: seq<SocDisk>, single: bool, hasSuper: bool, d: string)
    ensures d in DeviceHints(ds, single, hasSuper) <==> exists i :: 0 <= i < |ds| && Gives(ds[i].role, single, hasSuper, d)
  {
    if ds != [] {
      GivenBySomeDisk(ds[1..], single, hasSuper, d);
      assert forall i :: 0 <= i < |ds| - 1 ==> ds[1..][i] == ds[i + 1];
      if i :| 0 <= i < |ds| && Gives(ds[i].role, single, hasSuper, d) {
        assert i == 0 || Gives(ds[1..][i - 1].role, single, hasSuper, d);
      }
    }
  }

  lemma WhoGives(role: DiskRole, single: bool, hasSuper: bool)
    ensures Gives(role, single, hasSuper, "vda") <==> role == Boot || (role == Super && single) || (role == Userdata && !hasSuper)
    ensures Gives(role, single, hasSuper, "vdb") <==> role == InitBoot || (role == Userdata && hasSuper)
    ensures Gives(role, single, hasSuper, "vdc") <==> role == VendorBoot || role == Frp
    ensures Gives(role, single, hasSuper, "vdk") <==> role == Misc
  {
  }

  lemma FixedAre(x: string)
    requires x in FIXED_DEVICES
    ensures ',' !in x && (|x| == 3 ==> x == "vdj")
  {
  }

  /** What the disks and the fixed devices give between them. */
  lemma DevicesListed(ds: seq<SocDisk>)
    ensures "vda" in AllDevices(ds) <==>
      Has(ds, Boot) || (|ds| == 1 && Has(ds, Super)) || (Has(ds, Userdata) && !Has(ds, Super))
    ensures "vdb" in AllDevices(ds) <==> Has(ds, InitBoot) || (Has(ds, Userdata) && Has(ds, Super))
    ensures "vdc" in AllDevices(ds) <==> Has(ds, VendorBoot) || Has(ds, Frp)
    ensures "vdk" in AllDevices(ds) <==> Has(ds, Misc)
  {
    var single, hasSuper := |ds| == 1, Has(ds, Super);
    forall i | 0 <= i < |ds|
      ensures Gives(ds[i].role, single, hasSuper, "vda") <==>
        ds[i].role == Boot || (ds[i].role == Super && single) || (ds[i].role == Userdata && !hasSuper)
      ensures Gives(ds[i].role, single, hasSuper, "vdb") <==> ds[i].role == InitBoot || (ds[i].role == Userdata && hasSuper)
      ensures Gives(ds[i].role, single, hasSuper, "vdc") <==> ds[i].role == VendorBoot || ds[i].role == Frp
      ensures Gives(ds[i].role, single, hasSuper, "vdk") <==> ds[i].role == Misc
    {
      WhoGives(ds[i].role, single, hasSuper);
    }
    GivenBySomeDisk(ds, single, hasSuper, "vda");
    GivenBySomeDisk(ds, single, hasSuper, "vdb");
    GivenBySomeDisk(ds, single, hasSuper, "vdc");
    GivenBySomeDisk(ds, single, hasSuper, "vdk");
    NotFixed();
  }

  /** One more device is there as soon as a disk has a role. */
  lemma DiskWithRole(ds: seq<SocDisk>)
    ensures "vdj" in AllDevices(ds) <==> UsesPartitionMap(ds)
  {
    assert FIXED_DEVICES[2] == "vdj";
    var single, hasSuper := |ds| == 1, Has(ds, Super);
    GivenBySomeDisk(ds, single, hasSuper, "vdj");
    forall i | 0 <= i < |ds| && Gives(ds[i].role, single, hasSuper, "vdj")
      ensures ds[i].role != Other
    {
    }
  }

  lemma NotFixed()
    ensures "vda" !in FIXED_DEVICES && "vdb" !in FIXED_DEVICES && "vdc" !in FIXED_DEVICES && "vdk" !in FIXED_DEVICES
  {
    if "vda" in FIXED_DEVICES {
      FixedAre("vda");
    }
    if "vdb" in FIXED_DEVICES {
      FixedAre("vdb");
    }
    if "vdc" in FIXED_DEVICES {
      FixedAre("vdc");
    }
    if "vdk" in FIXED_DEVICES {
      FixedAre("vdk");
    }
  }

  // ----- Read off the line

  lemma {:induction false} NoCommas(ds: seq<SocDisk>, single: bool, hasSuper: bool)
    ensures forall x :: x in DeviceHints(ds, single, hasSuper) ==> ',' !in x
  {
    if ds != [] {
      NoCommas(ds[1..], single, hasSuper);
    }
  }

  lemma ListSplits(ds: seq<SocDisk>, devices: seq<string>, d: string)
    requires devices == Fresh(AllDevices(ds), {}) && d != ""
    ensures d in Split(Join(devices, ","), ',') <==> d in AllDevices(ds)
  {
    FreshIsExact(AllDevices(ds), {});
    NoCommas(ds, |ds| == 1, Has(ds, Super));
    forall i | 0 <= i < |devices|
      ensures ',' !in devices[i]
    {
      assert devices[i] in AllDevices(ds);
      if devices[i] in FIXED_DEVICES {
        FixedAre(devices[i]);
      }
    }
    if devices != [] {
      SplitJoined(devices, ',');
    } else {
      assert Split("", ',') == [""];
    }
  }

  /** On a line that does not mention them, the built line lists the boot devices once; the first disk's device,
      `vda`, is among them only for a boot disk, for a super disk that is alone, or for userdata without super. */
  lemma BuiltDevicesIff(args: string, soc: SoCDescriptor) returns (lists: seq<string>)
    requires IsDescribed(soc) && !Contains(args, "androidboot.boot_devices")
    ensures lists == OptionValues(CmdlineFor(args, soc), "androidboot.boot_devices") && |lists| == 1
    ensures "vda" in Split(lists[0], ',') <==>
      || Has(soc.disks, Boot)
      || (|soc.disks| == 1 && Has(soc.disks, Super))
      || (Has(soc.disks, Userdata) && !Has(soc.disks, Super))
    ensures "vdb" in Split(lists[0], ',') <==> Has(soc.disks, InitBoot) || (Has(soc.disks, Userdata) && Has(soc.disks, Super))
    ensures "vdc" in Split(lists[0], ',') <==> Has(soc.disks, VendorBoot) || Has(soc.disks, Frp)
    ensures "vdk" in Split(lists[0], ',') <==> Has(soc.disks, Misc)
    ensures "vdj" in Split(lists[0], ',') <==> exists i :: 0 <= i < |soc.disks| && soc.disks[i].role != Other
  {
    lists := BuiltDevices(args, soc);
    DevicesListed(soc.disks);
    DiskWithRole(soc.disks);
    ListSplits(soc.disks, soc.bootDevices, "vda");
    ListSplits(soc.disks, soc.bootDevices, "vdb");
    ListSplits(soc.disks, soc.bootDevices, "vdc");
    ListSplits(soc.disks, soc.bootDevices, "vdk");
    ListSplits(soc.disks, soc.bootDevices, "vdj");
  }

  lemma BuiltDevices(args: string, soc: SoCDescriptor) returns (lists: seq<string>)
    requires IsDescribed(soc) && !Contains(args, "androidboot.boot_devices")
    ensures lists == OptionValues(CmdlineFor(args, soc), "androidboot.boot_devices")
    ensures lists == [Join(soc.bootDevices, ",")]
  {
    lists := OptionValues(CmdlineFor(args, soc), "androidboot.boot_devices");
    AbsentKey(args, "androidboot.boot_devices");
    var h := Hint("androidboot.boot_devices", Join(soc.bootDevices, ","));
    assert AllHints(soc)[20] == h;
    BuiltValues(args, soc, 20);
    if Contains(args, TextOf(h)) {
      PrefixOccurs(args, TextOf(h), h.key);
    }
  }

  /** Whenever the partition map on the line is right and super is not alone, the line's boot devices leave out the
      very disk that the map puts every partition on. */
  lemma RightMapLeavesOutItsDisk(args: string, soc: SoCDescriptor, value: string) returns (lists: seq<string>)
    requires IsDescribed(soc) && Sorted(soc.disks) && |soc.disks| > 1
    requires !Contains(args, "androidboot.boot_devices") && !Contains(args, "androidboot.partition_map")
    requires OptionValues(CmdlineFor(args, soc), "androidboot.partition_map") == [value] && MapIsRight(value, soc.disks)
    ensures lists == OptionValues(CmdlineFor(args, soc), "androidboot.boot_devices") && |lists| == 1
    ensures soc.disks[0].role == Super && "vda" !in Split(lists[0], ',')
  {
    lists := BuiltDevicesIff(args, soc);
    var maps := BuiltMap(args, soc);
    MapIsRightIff(Has(soc.disks, Userdata), Has(soc.disks, Frp), soc.disks);
    assert Has(soc.disks, Super);
    NoBootDisk(soc.disks);
  }

  lemma NoBootDisk(disks: seq<SocDisk>)
    requires Sorted(disks) && SuperFirst(disks)
    ensures !Has(disks, Boot)
  {
    forall i | 0 <= i < |disks|
      ensures disks[i].role != Boot
    {
      FirstIsLeast(disks, i);
    }
  }
}
