/** Laying partitions out on a GPT disk: `align_up`, the layout loop and the disk size. */
module Gpt {
  const SECTOR_SIZE := 512
  const FIRST_USABLE_LBA := 2048
  const LAST_RESERVED_LBAS := 33

  function AlignUp(value: nat, alignment: nat): nat
    requires alignment > 0
  {
    (value + alignment - 1) / alignment * alignment
  }

  function SizeLba(size: nat): nat { (size + SECTOR_SIZE - 1) / SECTOR_SIZE }

  /** Where partition `k` starts. */
  function Start(sizes: seq<nat>, k: nat): nat
    requires k < |sizes|
    decreases k, 0
  {
    if k == 0 then FIRST_USABLE_LBA else AlignUp(Past(sizes, k - 1), FIRST_USABLE_LBA)
  }

  /** The sector after the last one of partition `k`. */
  function Past(sizes: seq<nat>, k: nat): nat
    requires k < |sizes|
    decreases k, 1
  {
    Start(sizes, k) + SizeLba(sizes[k])
  }

  /** The last sector, which for an empty image is the one before the first. */
  function End(sizes: seq<nat>, k: nat): nat
    requires k < |sizes|
    ensures End(sizes, k) == Past(sizes, k) - 1
  {
    StartIsAligned(sizes, k);
    Past(sizes, k) - 1
  }

  function DiskSectors(sizes: seq<nat>): nat
    requires sizes != []
  {
    AlignUp(End(sizes, |sizes| - 1) + LAST_RESERVED_LBAS, FIRST_USABLE_LBA)
  }

  function BackupEntryLba(sizes: seq<nat>): nat
    requires sizes != []
    ensures BackupEntryLba(sizes) == DiskSectors(sizes) - 33
  {
    AlignUpIsLeast(End(sizes, |sizes| - 1) + LAST_RESERVED_LBAS);
    DiskSectors(sizes) - 33
  }

  method PlanLayout(sizes: seq<nat>) returns (layout: seq<(nat, nat)>)
    ensures |layout| == |sizes|
    ensures forall k :: 0 <= k < |sizes| ==> layout[k] == (Start(sizes, k), End(sizes, k))
  {
    var offsetLba := FIRST_USABLE_LBA;
    layout := [];
    var k := 0;
    while k < |sizes|
      invariant k <= |sizes| && |layout| == k
      invariant forall j :: 0 <= j < k ==> layout[j] == (Start(sizes, j), End(sizes, j))
      invariant k < |sizes| ==> offsetLba == Start(sizes, k)
    {
      var start := offsetLba;
      var end := start + SizeLba(sizes[k]) - 1;
      StartIsAligned(sizes, k);
      layout := layout + [(start, end)];
      offsetLba := AlignUp(end + 1, FIRST_USABLE_LBA);
      k := k + 1;
    }
  }

  // ----- What the layout guarantees

  /** The least multiple of the alignment that is not below the value. */
  lemma AlignUpIsLeast(value: nat)
    ensures var r := AlignUp(value, FIRST_USABLE_LBA);
      r % FIRST_USABLE_LBA == 0 && value <= r < value + FIRST_USABLE_LBA
    ensures forall q: nat :: value <= FIRST_USABLE_LBA * q ==> AlignUp(value, FIRST_USABLE_LBA) <= FIRST_USABLE_LBA * q
  {
  }

  lemma StartIsAligned(sizes: seq<nat>, k: nat)
    requires k < |sizes|
    ensures Start(sizes, k) % FIRST_USABLE_LBA == 0 && Start(sizes, k) >= FIRST_USABLE_LBA
    decreases k
  {
    if k > 0 {
      StartIsAligned(sizes, k - 1);
      AlignUpIsLeast(Past(sizes, k - 1));
    }
  }

  /** A partition has room for its image and less than a sector to spare. */
  lemma RoomForImage(sizes: seq<nat>, k: nat)
    requires k < |sizes|
    ensures var room := (Past(sizes, k) - Start(sizes, k)) * SECTOR_SIZE;
      sizes[k] <= room < sizes[k] + SECTOR_SIZE
  {
  }

  /** A partition lies wholly before every later one, and so the last one ends last. */
  lemma {:induction false} InOrder(sizes: seq<nat>, i: nat, j: nat)
    requires i < j < |sizes|
    ensures Past(sizes, i) <= Start(sizes, j) && End(sizes, i) < Start(sizes, j)
    ensures End(sizes, i) <= End(sizes, j)
    decreases j
  {
    AlignUpIsLeast(Past(sizes, j - 1));
    if i < j - 1 {
      InOrder(sizes, i, j - 1);
    }
    StartIsAligned(sizes, i);
  }

  /** Partitions are aligned, pairwise disjoint, and clear of the primary header and its table. */
  lemma LayoutIsSound(sizes: seq<nat>)
    requires sizes != []
    ensures forall k :: 0 <= k < |sizes| ==> Start(sizes, k) % FIRST_USABLE_LBA == 0
    ensures forall k :: 0 <= k < |sizes| ==> Start(sizes, k) >= 2 + 32
    ensures forall i, j :: 0 <= i < j < |sizes| ==> End(sizes, i) < Start(sizes, j)
    ensures forall k :: 0 <= k < |sizes| ==> End(sizes, k) <= DiskSectors(sizes) - 33
  {
    forall k | 0 <= k < |sizes|
      ensures Start(sizes, k) % FIRST_USABLE_LBA == 0 && Start(sizes, k) >= 2 + 32
      ensures End(sizes, k) <= DiskSectors(sizes) - 33
    {
      StartIsAligned(sizes, k);
      EndsBeforeBackup(sizes, k);
    }
    forall i, j | 0 <= i < j < |sizes|
      ensures End(sizes, i) < Start(sizes, j)
    {
      InOrder(sizes, i, j);
    }
  }

  lemma EndsBeforeBackup(sizes: seq<nat>, k: nat)
    requires k < |sizes|
    ensures End(sizes, k) <= BackupEntryLba(sizes)
  {
    AlignUpIsLeast(End(sizes, |sizes| - 1) + LAST_RESERVED_LBAS);
    if k < |sizes| - 1 {
      InOrder(sizes, k, |sizes| - 1);
    }
  }

  /** The disk is sized from the last sector, not from the sector after it, so the last partition
      can run into the backup table.  It does exactly when its end is 33 short of the alignment. */
  predicate Collides(sizes: seq<nat>)
    requires sizes != []
  {
    (End(sizes, |sizes| - 1) + LAST_RESERVED_LBAS) % FIRST_USABLE_LBA == 0
  }

  lemma CollidesIff(sizes: seq<nat>, k: nat)
    requires k < |sizes|
    ensures End(sizes, k) >= BackupEntryLba(sizes) <==> k == |sizes| - 1 && Collides(sizes)
    ensures End(sizes, k) >= BackupEntryLba(sizes) ==> End(sizes, k) == BackupEntryLba(sizes) && sizes[k] > 0
  {
    var last := |sizes| - 1;
    StartBelowBackup(sizes, last);
    if k < last {
      InOrder(sizes, k, last);
    } else if sizes[k] == 0 {
      assert End(sizes, k) == Start(sizes, k) - 1;
    }
  }

  /** Even the last partition starts before the backup table. */
  lemma StartBelowBackup(sizes: seq<nat>, k: nat)
    requires k < |sizes|
    ensures Start(sizes, k) <= BackupEntryLba(sizes)
  {
    var last := |sizes| - 1;
    StartIsAligned(sizes, last);
    AlignUpIsLeast(End(sizes, last) + LAST_RESERVED_LBAS);
    NextMultiple(Start(sizes, last), DiskSectors(sizes));
    if k < last {
      InOrder(sizes, k, last);
    }
  }

  lemma NextMultiple(a: nat, b: nat)
    requires a % FIRST_USABLE_LBA == 0 && b % FIRST_USABLE_LBA == 0 && a < b
    ensures a + FIRST_USABLE_LBA <= b
  {
  }

  /** Sizing the disk from the sector after the last one, as the reserved tail needs, would never collide. */
  lemma OneSectorMoreWouldDo(sizes: seq<nat>, k: nat)
    requires k < |sizes|
    ensures End(sizes, k) < AlignUp(End(sizes, |sizes| - 1) + 1 + LAST_RESERVED_LBAS, FIRST_USABLE_LBA) - 33
  {
    AlignUpIsLeast(End(sizes, |sizes| - 1) + 1 + LAST_RESERVED_LBAS);
    if k < |sizes| - 1 {
      InOrder(sizes, k, |sizes| - 1);
    }
  }
}
