/** The hints `build_boot_contract` puts on the kernel command line, and when they end up as options. */
module BootHints {
  // A hint is `key=value` with no separator inside either.  Where one hint's text occurs in another's, its
  // key is a suffix of the other's key.  Two characters near the end of a key tell the keys of the contract
  // apart, so most of what follows evaluates one key, or a few keys, at a time.

  import opened BootOrder
  import opened BootContract
  import opened CommandLine

  // ----- The hints of a boot contract

  function Join(xs: seq<string>, sep: string): string {
    if xs == [] then "" else if |xs| == 1 then xs[0] else xs[0] + sep + Join(xs[1..], sep)
  }

  const FIXED_ENTRIES := [
    "vda1,boot_a", "vda2,init_boot_a", "vda3,metadata", "vda4,super", "vda5,vbmeta_a",
    "vda6,vbmeta_system_a", "vda7,vbmeta_system_dlkm_a", "vda8,vbmeta_vendor_dlkm_a",
    "vda9,vendor_boot_a", "vda10,misc"]

  /** The partition map; a separate userdata or frp disk gets an entry of its own. */
  function MapEntries(hasUserdata: bool, hasFrp: bool): seq<string> {
    FIXED_ENTRIES + (if hasUserdata then ["vdb,userdata"] else []) + (if hasFrp then ["vdc,frp"] else [])
  }

  function PartitionMap(hasUserdata: bool, hasFrp: bool): Hint {
    Hint("androidboot.partition_map", Join(MapEntries(hasUserdata, hasFrp), ";"))
  }

  /** A hint `key=value`. */
  datatype Hint = Hint(key: string, value: string)

  function TextOf(h: Hint): string { h.key + "=" + h.value }

  function HintsOf(soc: SoCDescriptor): seq<Hint> {
    [ Hint("androidboot.hardware", soc.hardware),
      Hint("androidboot.hardware.egl", "emulation"),
      Hint("androidboot.hardware.gralloc", "minigbm"),
      Hint("androidboot.hardware.hwcomposer", "ranchu"),
      Hint("androidboot.hardware.vulkan", "ranchu"),
      Hint("androidboot.hardware.gltransport", "virtio-gpu-pipe"),
      Hint("androidboot.vsock_lights_port", "6800"),
      Hint("androidboot.mode", "normal"),
      Hint("androidboot.bootmode", soc.bootmode),
      Hint("androidboot.slot_suffix", soc.slotSuffix),
      Hint("androidboot.fstab_suffix", soc.fstabSuffix),
      Hint("printk.devkmsg", "on"),
      Hint("printk.time", "1"),
      Hint("androidboot.force_normal_boot", "1"),
      Hint("androidboot.super_partition", "super"),
      Hint("androidboot.vbmeta.device_state", "unlocked"),
      Hint("ro.boot.verifiedbootstate", "orange"),
      Hint("ro.boot.flash.locked", "0"),
      Hint("androidboot.verifiedbootstate", "orange"),
      Hint("androidboot.veritymode", "disabled"),
      Hint("androidboot.boot_devices", Join(soc.bootDevices, ",")) ]
  }

  function Texts(hs: seq<Hint>): seq<string> {
    seq(|hs|, i requires 0 <= i < |hs| => TextOf(hs[i]))
  }

  function MapHint(soc: SoCDescriptor): seq<Hint> {
    if UsesPartitionMap(soc.disks) then [PartitionMap(Has(soc.disks, Userdata), Has(soc.disks, Frp))] else []
  }

  function CmdlineFor(cmdline: string, soc: SoCDescriptor): string {
    AddHints(AddHints(cmdline, Texts(HintsOf(soc))), Texts(MapHint(soc)))
  }

  /** The command line of `build_boot_contract`. */
  method BuildCmdline(args: string, soc: SoCDescriptor) returns (cmdline: string)
    ensures cmdline == CmdlineFor(args, soc)
  {
    var maps := Texts(MapHint(soc));
    cmdline := InsertHints(args, Texts(HintsOf(soc)));
    if |maps| == 1 {
      cmdline := InsertHints(cmdline, maps);
    }
  }

  /** Building again from the command line that was built changes nothing. */
  lemma RebuildingChangesNothing(args: string, soc: SoCDescriptor)
    ensures CmdlineFor(CmdlineFor(args, soc), soc) == CmdlineFor(args, soc)
  {
    InsertingBothTwiceIsOnce(args, Texts(HintsOf(soc)), Texts(MapHint(soc)));
  }

  lemma InsertingBothTwiceIsOnce(args: string, hints: seq<string>, maps: seq<string>)
    ensures var built := AddHints(AddHints(args, hints), maps);
      AddHints(AddHints(built, hints), maps) == built
  {
    var first := AddHints(args, hints);
    var built := AddHints(first, maps);
    HintsAreIn(args, hints);
    HintsAreIn(first, maps);
    forall i | 0 <= i < |hints|
      ensures Contains(built, hints[i])
    {
      ExtensionContains(first, built, hints[i]);
    }
    NothingToAdd(built, hints);
    NothingToAdd(built, maps);
  }

  lemma {:induction false} JoinGrows(xs: seq<string>, ys: seq<string>, sep: string)
    requires xs != [] && ys != [] && sep != ""
    ensures Join(xs, sep) < Join(xs + ys, sep)
  {
    if |xs| == 1 {
      assert (xs + ys)[0] == xs[0];
    } else {
      assert (xs + ys)[1..] == xs[1..] + ys;
      JoinGrows(xs[1..], ys, sep);
      assert Join(xs + ys, sep) == xs[0] + sep + Join(xs[1..] + ys, sep);
    }
  }

  // ----- Keys and values

  /** No separator of hints and none of keys from values. */
  predicate Plain(s: string) { ' ' !in s && '=' !in s }

  predicate PlainHint(h: Hint) { Plain(h.key) && Plain(h.value) }

  predicate IsSuffix(a: string, b: string) {
    |a| <= |b| && b[|b| - |a|..] == a
  }

  /** One plain hint contains another only with its equals sign in the same place. */
  lemma ContainedHint(a: Hint, b: Hint)
    requires PlainHint(a) && PlainHint(b) && Contains(TextOf(b), TextOf(a))
    ensures IsSuffix(a.key, b.key) && a.value <= b.value
  {
    var s, t := TextOf(b), TextOf(a);
    var i :| 0 <= i <= |s| - |t| && OccursAt(s, i, t);
    assert t == s[i..i + |t|];
    assert t[|a.key|] == s[i + |a.key|];
    SplitAlike(a, b, i);
  }

  lemma SplitAlike(a: Hint, b: Hint, i: nat)
    requires i + |TextOf(a)| <= |TextOf(b)| && TextOf(a) == TextOf(b)[i..i + |TextOf(a)|]
    requires i + |a.key| == |b.key|
    ensures b.key[i..] == a.key && a.value <= b.value
  {
    forall k | 0 <= k < |a.key|
      ensures b.key[i..][k] == a.key[k]
    {
      assert TextOf(a)[k] == TextOf(b)[i + k];
    }
    forall k | 0 <= k < |a.value|
      ensures b.value[k] == a.value[k]
    {
      assert TextOf(a)[|a.key| + 1 + k] == TextOf(b)[|b.key| + 1 + k];
    }
  }

  // ----- The keys of the contract's hints

  function AllHints(soc: SoCDescriptor): seq<Hint> {
    HintsOf(soc) + MapHint(soc)
  }

  function Key(i: nat): string
    requires i < 22
  {
    if i == 0 then "androidboot.hardware" else
    if i == 1 then "androidboot.hardware.egl" else
    if i == 2 then "androidboot.hardware.gralloc" else
    if i == 3 then "androidboot.hardware.hwcomposer" else
    if i == 4 then "androidboot.hardware.vulkan" else
    if i == 5 then "androidboot.hardware.gltransport" else
    if i == 6 then "androidboot.vsock_lights_port" else
    if i == 7 then "androidboot.mode" else
    if i == 8 then "androidboot.bootmode" else
    if i == 9 then "androidboot.slot_suffix" else
    if i == 10 then "androidboot.fstab_suffix" else
    if i == 11 then "printk.devkmsg" else
    if i == 12 then "printk.time" else
    if i == 13 then "androidboot.force_normal_boot" else
    if i == 14 then "androidboot.super_partition" else
    if i == 15 then "androidboot.vbmeta.device_state" else
    if i == 16 then "ro.boot.verifiedbootstate" else
    if i == 17 then "ro.boot.flash.locked" else
    if i == 18 then "androidboot.verifiedbootstate" else
    if i == 19 then "androidboot.veritymode" else
    if i == 20 then "androidboot.boot_devices" else
    "androidboot.partition_map"
  }

  /** The last but one and the ninth character from the end tell the keys apart, but for the two that end in
      `boot.verifiedbootstate`. */
  function Mark(key: string): (char, char)
    requires |key| >= 9
  {
    (key[|key| - 2], key[|key| - 9])
  }

  function Number(mark: (char, char)): nat {
    if mark == ('r', '.') then 0 else
    if mark == ('g', 'd') then 1 else
    if mark == ('o', 'e') then 2 else
    if mark == ('e', 'w') then 3 else
    if mark == ('a', 'r') then 4 else
    if mark == ('r', 't') then 5 else
    if mark == ('r', 'g') then 6 else
    if mark == ('d', 'b') then 7 else
    if mark == ('d', '.') then 8 else
    if mark == ('i', 'o') then 9 else
    if mark == ('i', 'a') then 10 else
    if mark == ('s', 'k') then 11 else
    if mark == ('m', 'i') then 12 else
    if mark == ('o', 'r') then 13 else
    if mark == ('o', 'p') then 14 else
    if mark == ('t', 'i') then 15 else
    if mark == ('t', 'b') then 16 else
    if mark == ('e', 's') then 17 else
    if mark == ('d', 'e') then 19 else
    if mark == ('e', 't') then 20 else
    if mark == ('a', 'i') then 21 else
    22
  }

  lemma YetMoreKeys(i: nat)
    requires 12 <= i < 15
    ensures |Key(i)| >= 9 && Number(Mark(Key(i))) == i
  {
  }

  lemma StateKeys(i: nat)
    requires 15 <= i < 17
    ensures |Key(i)| >= 9 && Number(Mark(Key(i))) == i
  {
  }

  lemma LastKeys(i: nat)
    requires 17 <= i < 22
    ensures |Key(i)| >= 9 && Number(Mark(Key(i))) == if i == 18 then 16 else i
  {
  }

  lemma KeyNumber(i: nat)
    requires i < 22
    ensures |Key(i)| >= 9 && Number(Mark(Key(i))) == if i == 18 then 16 else i
  {
    if i < 6 {
    } else if i < 12 {
    } else if i < 15 {
      YetMoreKeys(i);
    } else if i < 17 {
      StateKeys(i);
    } else {
      LastKeys(i);
    }
  }

  lemma BootStateKeysDiffer()
    ensures !IsSuffix(Key(16), Key(18)) && !IsSuffix(Key(18), Key(16))
  {
    assert |Key(16)| == 25 && |Key(18)| == 29;
  }

  /** No key is the end of another. */
  lemma KeysApart(i: nat, j: nat)
    requires i < 22 && j < 22 && i != j
    ensures !IsSuffix(Key(i), Key(j))
  {
    KeyNumber(i);
    KeyNumber(j);
    if IsSuffix(Key(i), Key(j)) {
      BootStateKeysDiffer();
    }
  }

  lemma HintHasKey(soc: SoCDescriptor, i: nat)
    requires i < |AllHints(soc)|
    ensures |AllHints(soc)| <= 22 && AllHints(soc)[i].key == Key(i)
  {
  }

  // ----- Every hint of a contract is a plain one

  lemma PlainKeys(i: nat)
    requires i < 22
    ensures Plain(Key(i))
  {
    PlainModeKeys();
    PlainSuffixKeys();
    PlainStateKeys();
    PlainFlashKeys();
    PlainVerityKeys();
    PlainRestKeys();
  }

  lemma PlainModeKeys()
    ensures Plain("androidboot.vsock_lights_port") && Plain("androidboot.mode") && Plain("androidboot.bootmode")
  {
  }

  lemma PlainSuffixKeys()
    ensures Plain("androidboot.slot_suffix") && Plain("androidboot.fstab_suffix") && Plain("printk.devkmsg")
  {
  }

  lemma PlainStateKeys()
    ensures Plain("androidboot.super_partition") && Plain("androidboot.vbmeta.device_state")
  {
  }

  lemma PlainFlashKeys()
    ensures Plain("ro.boot.verifiedbootstate") && Plain("ro.boot.flash.locked")
  {
  }

  lemma PlainVerityKeys()
    ensures Plain("androidboot.verifiedbootstate") && Plain("androidboot.veritymode")
  {
  }

  lemma PlainRestKeys()
    ensures Plain("androidboot.boot_devices") && Plain("androidboot.partition_map")
  {
  }

  lemma PlainBoth(a: string, b: string)
    requires Plain(a) && Plain(b)
    ensures Plain(a + b)
  {
  }

  lemma {:induction false} PlainJoin(xs: seq<string>, sep: string)
    requires Plain(sep) && forall i :: 0 <= i < |xs| ==> Plain(xs[i])
    ensures Plain(Join(xs, sep))
  {
    if |xs| > 1 {
      PlainJoin(xs[1..], sep);
      PlainBoth(xs[0], sep);
      PlainBoth(xs[0] + sep, Join(xs[1..], sep));
    }
  }

  lemma {:induction false} PlainDeviceHints(ds: seq<SocDisk>, single: bool, hasSuper: bool)
    ensures forall x :: x in DeviceHints(ds, single, hasSuper) ==> Plain(x)
  {
    if ds != [] {
      PlainDeviceHints(ds[1..], single, hasSuper);
    }
  }

  lemma PlainFixedDevices()
    ensures forall x :: x in FIXED_DEVICES ==> Plain(x)
  {
    forall i | 0 <= i < 16
      ensures Plain(FIXED_DEVICES[i])
    {
      if i < 4 {
      } else if i < 10 {
        PlainMoreDevices(i);
      } else {
      }
    }
  }

  lemma PlainMoreDevices(i: nat)
    requires 4 <= i < 10
    ensures Plain(FIXED_DEVICES[i])
  {
  }

  lemma PlainDevices(ds: seq<SocDisk>)
    ensures Plain(Join(Fresh(AllDevices(ds), {}), ","))
  {
    PlainDeviceHints(ds, |ds| == 1, Has(ds, Super));
    PlainFixedDevices();
    FreshIsExact(AllDevices(ds), {});
    var devices := Fresh(AllDevices(ds), {});
    assert forall i :: 0 <= i < |devices| ==> devices[i] in devices;
    PlainJoin(devices, ",");
  }

  lemma PlainMap(hasUserdata: bool, hasFrp: bool)
    ensures PlainHint(PartitionMap(hasUserdata, hasFrp))
  {
    PlainFixedEntries();
    var entries := MapEntries(hasUserdata, hasFrp);
    assert Plain("vdb,userdata") && Plain("vdc,frp");
    PlainJoin(entries, ";");
    PlainRestKeys();
  }

  lemma PlainFixedEntries()
    ensures forall i :: 0 <= i < |FIXED_ENTRIES| ==> Plain(FIXED_ENTRIES[i])
  {
  }

  lemma PlainValues(soc: SoCDescriptor, i: nat)
    requires IsDescribed(soc) && i < |AllHints(soc)|
    ensures Plain(AllHints(soc)[i].value)
  {
    if i == 20 {
      PlainDevices(soc.disks);
    } else if i == 21 {
      PlainMap(Has(soc.disks, Userdata), Has(soc.disks, Frp));
    } else {
      PlainFixedValues(soc, i);
    }
  }

  lemma PlainFixedValues(soc: SoCDescriptor, i: nat)
    requires IsDescribed(soc) && i < 20
    ensures Plain(HintsOf(soc)[i].value)
  {
    FixedValues(soc, i);
    PlainFixedValue(i);
  }

  function FixedValue(i: nat): string
    requires i < 20
  {
    if i == 0 then "cf" else if i == 1 then "emulation" else if i == 2 then "minigbm"
    else if i == 3 || i == 4 then "ranchu" else if i == 5 then "virtio-gpu-pipe" else if i == 6 then "6800"
    else if i == 7 || i == 8 then "normal" else if i == 9 then "_a" else if i == 10 then "cf.f2fs.hctr2"
    else if i == 11 then "on" else if i == 12 || i == 13 then "1" else if i == 14 then "super"
    else if i == 15 then "unlocked" else if i == 17 then "0" else if i == 19 then "disabled" else "orange"
  }

  lemma FixedValues(soc: SoCDescriptor, i: nat)
    requires IsDescribed(soc) && i < 20
    ensures HintsOf(soc)[i].value == FixedValue(i)
  {
  }

  lemma PlainFixedValue(i: nat)
    requires i < 20
    ensures Plain(FixedValue(i))
  {
  }

  /** The hints of a contract are words none of which contains another. */
  lemma HintsAreSeparate(soc: SoCDescriptor)
    requires IsDescribed(soc)
    ensures Separate(Texts(AllHints(soc)))
  {
    var hs := AllHints(soc);
    forall i | 0 <= i < |hs|
      ensures PlainHint(hs[i])
    {
      HintHasKey(soc, i);
      PlainKeys(i);
      PlainValues(soc, i);
    }
    forall i, j | 0 <= i < |hs| && 0 <= j < |hs| && i != j
      ensures !Contains(TextOf(hs[i]), TextOf(hs[j]))
    {
      HintsApart(soc, i, j);
    }
  }

  lemma HintsApart(soc: SoCDescriptor, i: nat, j: nat)
    requires i < |AllHints(soc)| && j < |AllHints(soc)| && i != j
    requires PlainHint(AllHints(soc)[i]) && PlainHint(AllHints(soc)[j])
    ensures !Contains(TextOf(AllHints(soc)[i]), TextOf(AllHints(soc)[j]))
  {
    HintHasKey(soc, i);
    HintHasKey(soc, j);
    KeysApart(j, i);
    if Contains(TextOf(AllHints(soc)[i]), TextOf(AllHints(soc)[j])) {
      ContainedHint(AllHints(soc)[j], AllHints(soc)[i]);
    }
  }

  // ----- When a hint is an option of the command line

  lemma {:induction false} AddBoth(cmdline: string, a: seq<string>, b: seq<string>)
    ensures AddHints(cmdline, a + b) == AddHints(AddHints(cmdline, a), b)
    decreases |a|
  {
    if a == [] {
      assert a + b == b;
    } else {
      assert (a + b)[1..] == a[1..] + b;
      AddBoth(AddHint(cmdline, a[0]), a[1..], b);
    }
  }

  /** Whatever the disks and the command line given: each hint of the contract is an option of the command line
      built exactly when it was one of the line given or its text did not occur there. */
  lemma BuiltOptionIff(args: string, soc: SoCDescriptor, k: nat)
    requires IsDescribed(soc) && k < |AllHints(soc)|
    ensures var text := TextOf(AllHints(soc)[k]);
      IsOption(CmdlineFor(args, soc), text) <==> IsOption(args, text) || !Contains(args, text)
  {
    HintsAreSeparate(soc);
    var hints, maps := Texts(HintsOf(soc)), Texts(MapHint(soc));
    assert Texts(AllHints(soc)) == hints + maps;
    AddBoth(args, hints, maps);
    OptionsIffNotShadowed(args, Texts(AllHints(soc)), k);
  }

  /** With a map naming a userdata disk already on the line, a contract for disks of which none is a userdata
      or frp disk, but some has a role, does not get its own map onto it. */
  lemma LongerMapShadows(soc: SoCDescriptor, hasFrp: bool)
    requires IsDescribed(soc) && UsesPartitionMap(soc.disks) && !Has(soc.disks, Userdata) && !Has(soc.disks, Frp)
    ensures MapHint(soc) == [PartitionMap(false, false)]
    ensures !IsOption(CmdlineFor(TextOf(PartitionMap(true, hasFrp)), soc), TextOf(PartitionMap(false, false)))
  {
    assert AllHints(soc)[21] == PartitionMap(false, false);
    BuiltOptionIff(TextOf(PartitionMap(true, hasFrp)), soc, 21);
    LongerMapLacksShorter(hasFrp);
  }

  lemma LongerMapLacksShorter(hasFrp: bool)
    ensures Contains(TextOf(PartitionMap(true, hasFrp)), TextOf(PartitionMap(false, false)))
    ensures !IsOption(TextOf(PartitionMap(true, hasFrp)), TextOf(PartitionMap(false, false)))
  {
    MapsGrow(hasFrp);
    PlainMap(true, hasFrp);
    PrefixOfWord(TextOf(PartitionMap(true, hasFrp)), TextOf(PartitionMap(false, false)));
  }

  lemma PrefixOfWord(word: string, h: string)
    requires IsWord(word) && h < word
    ensures Contains(word, h) && !IsOption(word, h)
  {
    assert OccursAt(word, 0, h);
  }

  lemma MapsGrow(hasFrp: bool)
    ensures TextOf(PartitionMap(false, false)) < TextOf(PartitionMap(true, hasFrp))
  {
    var frp := if hasFrp then ["vdc,frp"] else [];
    EntriesGrow(FIXED_ENTRIES, "vdb,userdata", frp);
  }

  lemma EntriesGrow(entries: seq<string>, userdata: string, frp: seq<string>)
    requires entries != [] && userdata != ""
    ensures Join(entries + [] + [], ";") < Join(entries + [userdata] + frp, ";")
  {
    JoinGrows(entries, [userdata] + frp, ";");
    assert entries + ([userdata] + frp) == entries + [userdata] + frp;
    assert entries + [] + [] == entries;
  }
}
