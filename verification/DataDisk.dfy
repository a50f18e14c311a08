// The data disk image: ensureDataDisk, createSparseDataDisk and resizeDataDiskCmd on the host
// (launcher/mac/main.go), and the guest service that formats it (container/format-data-disk.initd.sh).

module DataDisk {
  import opened Text

  type Byte = b: int | 0 <= b < 256

  type Image = seq<Byte>

  const GIB := 0x4000_0000

  /** The largest size, exclusive, whose byte count fits a signed 64-bit integer. */
  const SIZE_LIMIT := 0x2_0000_0000

  // ----- sizes -----

  /** Reduction of a mathematical integer to a signed 64-bit one. */
  function Wrap64(n: int): (r: int)
    ensures IsInt64(r)
    ensures IsInt64(n) ==> r == n
  {
    (n + 0x8000_0000_0000_0000) % 0x1_0000_0000_0000_0000 - 0x8000_0000_0000_0000
  }

  /** int64(sizeGB) * 1024 * 1024 * 1024 */
  function SizeBytes(sizeGB: int): int {
    Wrap64(Wrap64(Wrap64(sizeGB * 1024) * 1024) * 1024)
  }

  /** The byte count is right exactly below the limit. */
  lemma SizeBytesIsExact(sizeGB: int)
    requires sizeGB >= 0
    ensures SizeBytes(sizeGB) == sizeGB * GIB <==> sizeGB < SIZE_LIMIT
  {
    if sizeGB < SIZE_LIMIT {
      assert IsInt64(sizeGB * 1024 * 1024 * 1024);
      assert IsInt64(sizeGB * 1024 * 1024) && IsInt64(sizeGB * 1024);
    } else {
      assert !IsInt64(sizeGB * GIB);
    }
  }

  /** The size whose byte count the 64-bit product is: the remainder modulo 2^34 that lies around zero. */
  function CountedGB(sizeGB: int): (r: int)
    ensures -SIZE_LIMIT <= r < SIZE_LIMIT
  {
    (sizeGB + SIZE_LIMIT) % (2 * SIZE_LIMIT) - SIZE_LIMIT
  }

  lemma WrapUnique(n: int, r: int, k: int)
    requires n == r + k * 0x1_0000_0000_0000_0000 && IsInt64(r)
    ensures Wrap64(n) == r
  {
  }

  /** For every size, what the 64-bit arithmetic computes. */
  lemma SizeBytesWraps(sizeGB: int)
    ensures SizeBytes(sizeGB) == CountedGB(sizeGB) * GIB
  {
    var first := Wrap64(sizeGB * 1024);
    var second := Wrap64(first * 1024);
    var i := (sizeGB * 1024 + 0x8000_0000_0000_0000) / 0x1_0000_0000_0000_0000;
    var j := (first * 1024 + 0x8000_0000_0000_0000) / 0x1_0000_0000_0000_0000;
    var k := (sizeGB + SIZE_LIMIT) / (2 * SIZE_LIMIT);
    assert first == sizeGB * 1024 - i * 0x1_0000_0000_0000_0000;
    assert second == first * 1024 - j * 0x1_0000_0000_0000_0000;
    assert CountedGB(sizeGB) == sizeGB - k * (2 * SIZE_LIMIT);
    WrapUnique(second * 1024, CountedGB(sizeGB) * GIB, k - i * 0x10_0000 - j * 1024);
  }

  /** Comparing with the size rounded down to whole GiB decides the comparison in bytes. */
  lemma FlooredGuardIsExact(sizeGB: int, bytes: nat)
    ensures sizeGB <= bytes / GIB <==> sizeGB * GIB <= bytes
  {
  }

  // ----- the image file -----

  /** ftruncate: cut, or extend with zero bytes. */
  function Truncated(image: Image, size: nat): (r: Image)
    ensures |r| == size
    ensures forall i | 0 <= i < size :: r[i] == if i < |image| then image[i] else 0
    ensures size >= |image| ==> image <= r
  {
    if size <= |image| then image[..size] else image + seq(size - |image|, _ => 0)
  }

  /** The system calls that fail for reasons of their own. */
  datatype Luck = Luck(statFails: bool, openFails: bool, truncateFails: bool)

  const NO_FAULT := Luck(false, false, false)

  /** The image after ensureDataDisk. A disk whose creation fails half-way is empty. */
  function Ensured(image: Option<Image>, sizeGB: int, luck: Luck): Option<Image> {
    var wanted := CountedGB(sizeGB) * GIB;
    if luck.statFails || (luck.openFails && image == None) then image
    else if image == None then Some(if luck.truncateFails || wanted < 0 then [] else Truncated([], wanted))
    else if luck.openFails || luck.truncateFails || wanted <= |image.value| then image
    else Some(Truncated(image.value, wanted))
  }

  /** The image after resizeDataDiskCmd on a stopped VM. */
  function Resized(image: Option<Image>, sizeGB: int, luck: Luck): Option<Image> {
    if image.Some? && luck == NO_FAULT && sizeGB * GIB > |image.value| && CountedGB(sizeGB) >= 0
    then Some(Truncated(image.value, CountedGB(sizeGB) * GIB))
    else image
  }

  class HostDisk {
    var image: Option<Image>

    constructor ()
      ensures image == None
    {
      image := None;
    }

    /** os.File.Truncate: fails for a negative size and whenever the file system refuses. */
    method Truncate(size: int, refused: bool) returns (failed: bool)
      requires image.Some?
      modifies this
      ensures failed <==> refused || size < 0
      ensures image == if failed then old(image) else Some(Truncated(old(image).value, size))
    {
      if refused || size < 0 {
        return true;
      }
      image := Some(Truncated(image.value, size));
      return false;
    }

    method CreateSparseDataDisk(sizeGB: int, luck: Luck) returns (failed: bool)
      modifies this
      ensures !failed <==> !luck.openFails && !luck.truncateFails && CountedGB(sizeGB) >= 0
      ensures !failed ==> image == Some(Truncated([], CountedGB(sizeGB) * GIB))
      ensures failed ==> image == if luck.openFails then old(image) else Some([])
    {
      SizeBytesWraps(sizeGB);
      hide SizeBytes, CountedGB;
      if luck.openFails {
        return true;
      }
      image := Some([]);
      failed := Truncate(SizeBytes(sizeGB), luck.truncateFails);
    }

    /**
     * ensureDataDisk never loses a byte of an existing disk, whatever size is asked for. It succeeds
     * exactly when the counted size is not below the current one and no system call that it needs
     * fails, and then leaves the counted size, which is the requested one exactly below the limit.
     */
    method EnsureDataDisk(requestedSizeGB: int, luck: Luck) returns (failed: bool)
      requires requestedSizeGB > 0
      modifies this
      ensures image == Ensured(old(image), requestedSizeGB, luck)
      ensures old(image).Some? ==> image.Some? && old(image).value <= image.value
      ensures failed ==> image == old(image) || (old(image) == None && image == Some([]))
      ensures !failed ==> image.Some? && |image.value| == CountedGB(requestedSizeGB) * GIB
      ensures !failed ==> (|image.value| == requestedSizeGB * GIB <==> requestedSizeGB < SIZE_LIMIT)
      ensures
        var current := if old(image).Some? then |old(image).value| else 0;
        var wanted := CountedGB(requestedSizeGB) * GIB;
        !failed <==>
          && !luck.statFails && wanted >= current
          && ((old(image).Some? && wanted == current) || (!luck.openFails && !luck.truncateFails))
      ensures requestedSizeGB < SIZE_LIMIT ==> CountedGB(requestedSizeGB) == requestedSizeGB
    {
      SizeBytesIsExact(requestedSizeGB);
      SizeBytesWraps(requestedSizeGB);
      hide SizeBytes, CountedGB;
      var requestedBytes := SizeBytes(requestedSizeGB);
      if luck.statFails {
        return true;
      }
      if image == None {
        failed := CreateSparseDataDisk(requestedSizeGB, luck);
        return;
      }
      var currentBytes := |image.value|;
      if currentBytes == requestedBytes {
        return false;
      } else if currentBytes < requestedBytes {
        if luck.openFails {
          return true;
        }
        failed := Truncate(requestedBytes, luck.truncateFails);
      } else {
        return true;
      }
    }

    /**
     * resizeDataDiskCmd accepts exactly the sizes that exceed the current bytes and whose counted size
     * is not negative, when the VM is stopped and no system call fails. It then cuts or extends the
     * image to the counted size: below the limit that is the requested size and every byte is kept.
     */
    method ResizeDataDisk(running: bool, newSize: Option<int>, luck: Luck) returns (failed: bool)
      modifies this
      ensures failed ==> image == old(image)
      ensures !failed <==>
        && !running && newSize.Some? && old(image).Some? && luck == NO_FAULT
        && newSize.value * GIB > |old(image).value| && CountedGB(newSize.value) >= 0
      ensures !running && newSize.Some? ==> image == Resized(old(image), newSize.value, luck)
      ensures !failed ==> |image.value| == CountedGB(newSize.value) * GIB
      ensures !failed ==> (|image.value| == newSize.value * GIB <==> newSize.value < SIZE_LIMIT)
      ensures !failed && newSize.value < SIZE_LIMIT ==> old(image).value < image.value
      ensures newSize.Some? && 0 <= newSize.value < SIZE_LIMIT ==> CountedGB(newSize.value) == newSize.value
    {
      if newSize.Some? {
        SizeBytesWraps(newSize.value);
        if newSize.value >= 0 { SizeBytesIsExact(newSize.value); }
      }
      hide SizeBytes, CountedGB;
      if running || newSize == None || image == None || luck.statFails {
        return true;
      }
      var newSizeGB := newSize.value;
      var currentSizeGB := |image.value| / GIB;
      FlooredGuardIsExact(newSizeGB, |image.value|);
      if newSizeGB <= currentSizeGB {
        return true;
      }
      if luck.openFails {
        return true;
      }
      failed := Truncate(SizeBytes(newSizeGB), luck.truncateFails);
    }
  }

  /** Above the limit a resize can be accepted and leave nothing at all. */
  method OversizedResizeEmptiesTheDisk(disk: HostDisk) returns (failed: bool)
    requires disk.image.Some? && |disk.image.value| < SIZE_LIMIT * GIB
    modifies disk
    ensures !failed && disk.image == Some([])
  {
    failed := disk.ResizeDataDisk(false, Some(0x4_0000_0000), NO_FAULT);
  }

  // ----- the guest service -----

  /** A block device under /sys/class/block/vd*: `children` are the entries below it. */
  datatype Device = Device(name: string, isPartition: bool, children: seq<string>)

  /** One of the entries matches "$sysdev"/"$name"*. */
  predicate HasPartitions(device: Device) {
    exists i :: 0 <= i < |device.children| && device.name <= device.children[i]
  }

  predicate IsDataDisk(device: Device) {
    !device.isPartition && !HasPartitions(device)
  }

  /** find_data_disk: the first whole device without partitions. */
  method FindDataDisk(devices: seq<Device>) returns (found: Option<nat>)
    ensures found.Some? ==> found.value < |devices| && IsDataDisk(devices[found.value])
    ensures forall i | 0 <= i < |devices| && (found.Some? ==> i < found.value) :: !IsDataDisk(devices[i])
  {
    for d := 0 to |devices|
      invariant forall i | 0 <= i < d :: !IsDataDisk(devices[i])
    {
      var device := devices[d];
      if device.isPartition {
        continue;
      }
      var hasParts := false;
      for i := 0 to |device.children|
        invariant hasParts <==> exists j :: 0 <= j < i && device.name <= device.children[j]
      {
        if device.name <= device.children[i] {
          hasParts := true;
          assert HasPartitions(device);
          break;
        }
      }
      if hasParts {
        continue;
      }
      return Some(d);
    }
    return None;
  }

  const LABEL := "exasol-data"

  /** Reads an ext4 superblock: the volume label when the 1024 bytes are one. This is dumpe2fs -h. */
  type SuperblockReader = seq<Byte> -> Option<string>

  const SUPERBLOCK_START := 1024
  const SUPERBLOCK_END := 2048

  function DiskLabel(image: Image, read: SuperblockReader): Option<string> {
    if |image| < SUPERBLOCK_END then None else read(image[SUPERBLOCK_START..SUPERBLOCK_END])
  }

  /** A program that may fail, and what it leaves: e2label a superblock, mkfs.ext4 a whole disk. */
  datatype Relabelling = Relabelling(ok: bool, superblock: seq<Byte>)
  datatype Formatting = Formatting(ok: bool, image: Image)

  /** What the guest's tools do in one boot: blkid's answer, e2label and mkfs.ext4. */
  datatype Tools = Tools(blkidType: string, e2label: Relabelling, mkfs: Formatting)

  /**
   * What the tools keep to: e2label leaves a superblock, with the new label when it succeeds, and
   * mkfs.ext4 cannot change the size of the device and leaves a labelled file system when it succeeds.
   */
  ghost predicate ToolsOk(tools: Tools, image: Image, read: SuperblockReader) {
    && |tools.e2label.superblock| == SUPERBLOCK_END - SUPERBLOCK_START
    && (tools.e2label.ok ==> read(tools.e2label.superblock) == Some(LABEL))
    && |tools.mkfs.image| == |image|
    && (tools.mkfs.ok ==> DiskLabel(tools.mkfs.image, read) == Some(LABEL))
  }

  datatype ServiceResult = AlreadyLabelled | Relabelled | RelabelFailed | Refused | Formatted | FormatFailed

  predicate StartsMkfs(result: ServiceResult) { result.Formatted? || result.FormatFailed? }

  /** e2label rewrites the superblock and nothing else. */
  function WithSuperblock(image: Image, superblock: seq<Byte>): (r: Image)
    requires |image| >= SUPERBLOCK_END && |superblock| == SUPERBLOCK_END - SUPERBLOCK_START
    ensures |r| == |image|
    ensures r[SUPERBLOCK_START..SUPERBLOCK_END] == superblock
    ensures KeepsData(image, r)
  {
    image[..SUPERBLOCK_START] + superblock + image[SUPERBLOCK_END..]
  }

  /** Every byte outside the superblock is still there. */
  ghost predicate KeepsData(before: Image, after: Image) {
    && |before| <= |after|
    && forall i | 0 <= i < |before| && !(1024 <= i < 2048) :: after[i] == before[i]
  }

  datatype Outcome = Outcome(result: ServiceResult, image: Image)

  /** What one boot of the guest service reports and makes of the disk. */
  function Booted(image: Image, read: SuperblockReader, tools: Tools): Outcome
    requires |tools.e2label.superblock| == SUPERBLOCK_END - SUPERBLOCK_START
  {
    match DiskLabel(image, read)
    case Some(name) =>
      if name == LABEL then Outcome(AlreadyLabelled, image)
      else if tools.e2label.ok then Outcome(Relabelled, WithSuperblock(image, tools.e2label.superblock))
      else Outcome(RelabelFailed, image)
    case None =>
      if tools.blkidType != "" && tools.blkidType != "ext4" then Outcome(Refused, image)
      else Outcome(if tools.mkfs.ok then Formatted else FormatFailed, tools.mkfs.image)
  }

  /**
   * mkfs runs exactly when there is no valid superblock and blkid reports no file system or ext4; in
   * every other case every byte outside the superblock is kept, and a valid superblock stays valid.
   * The size never changes, and success leaves the expected label.
   */
  lemma BootIsSafe(image: Image, read: SuperblockReader, tools: Tools)
    requires ToolsOk(tools, image, read)
    ensures
      var Outcome(result, after) := Booted(image, read, tools);
      && (StartsMkfs(result) <==> DiskLabel(image, read).None? && (tools.blkidType == "" || tools.blkidType == "ext4"))
      && (!StartsMkfs(result) ==> KeepsData(image, after))
      && (DiskLabel(image, read).Some? ==> DiskLabel(after, read).Some?)
      && |after| == |image|
      && (result.AlreadyLabelled? || result.Relabelled? || result.Formatted? ==> DiskLabel(after, read) == Some(LABEL))
  {
  }

  /** Which result is reported, and when the disk is left as it was. */
  lemma BootReports(image: Image, read: SuperblockReader, tools: Tools)
    requires ToolsOk(tools, image, read)
    ensures
      var Outcome(result, after) := Booted(image, read, tools);
      var disk := DiskLabel(image, read);
      var blank := disk.None? && (tools.blkidType == "" || tools.blkidType == "ext4");
      && (result.AlreadyLabelled? <==> disk == Some("exasol-data"))
      && (result.Relabelled? <==> disk.Some? && disk != Some("exasol-data") && tools.e2label.ok)
      && (result.RelabelFailed? <==> disk.Some? && disk != Some("exasol-data") && !tools.e2label.ok)
      && (result.Refused? <==> disk.None? && !blank)
      && (result.Formatted? <==> blank && tools.mkfs.ok)
      && (result.FormatFailed? <==> blank && !tools.mkfs.ok)
      && (result.AlreadyLabelled? || result.RelabelFailed? || result.Refused? ==> after == image)
      && (StartsMkfs(result) ==> after == tools.mkfs.image)
      && (result.Relabelled? ==> after[SUPERBLOCK_START..SUPERBLOCK_END] == tools.e2label.superblock)
  {
  }

  class GuestDisk {
    var image: Image
    /** How often mkfs.ext4 has been started on the disk. */
    var formats: nat

    constructor (image: Image)
      ensures this.image == image && formats == 0
    {
      this.image := image;
      formats := 0;
    }

    /** start() on the data disk: the outcome that BootIsSafe speaks of. */
    method Start(read: SuperblockReader, tools: Tools) returns (result: ServiceResult)
      requires ToolsOk(tools, image, read)
      modifies this
      ensures Outcome(result, image) == Booted(old(image), read, tools)
      ensures formats == old(formats) + (if StartsMkfs(result) then 1 else 0)
      ensures StartsMkfs(result) <==>
        DiskLabel(old(image), read).None? && (tools.blkidType == "" || tools.blkidType == "ext4")
      ensures !StartsMkfs(result) ==> KeepsData(old(image), image)
      ensures result.AlreadyLabelled? <==> DiskLabel(old(image), read) == Some("exasol-data")
      ensures result.Relabelled? || result.RelabelFailed? <==>
        DiskLabel(old(image), read).Some? && DiskLabel(old(image), read) != Some("exasol-data")
      ensures result.Relabelled? ==> tools.e2label.ok
      ensures result.RelabelFailed? ==> !tools.e2label.ok
      ensures StartsMkfs(result) ==> (result.Formatted? <==> tools.mkfs.ok)
      ensures result.AlreadyLabelled? || result.RelabelFailed? || result.Refused? ==> image == old(image)
    {
      BootIsSafe(image, read, tools);
      BootReports(image, read, tools);
      hide KeepsData;
      var fslabel := DiskLabel(image, read);
      if fslabel.Some? {
        if fslabel.value == LABEL {
          return AlreadyLabelled;
        }
        if tools.e2label.ok {
          image := WithSuperblock(image, tools.e2label.superblock);
          return Relabelled;
        }
        return RelabelFailed;
      }
      if tools.blkidType != "" && tools.blkidType != "ext4" {
        return Refused;
      }
      formats := formats + 1;
      image := tools.mkfs.image;
      return if tools.mkfs.ok then Formatted else FormatFailed;
    }
  }

  // ----- over the whole life of a disk -----

  datatype Disk = Disk(image: Option<Image>, formats: nat)

  /** What happens to a data disk: host commands, boots of the guest service, and the guest using its file system. */
  datatype Event =
    | HostStart(requestedSizeGB: int, host: Luck)
    | HostResize(newSizeGB: int, host: Luck)
    | Boot(tools: Tools)
    | GuestUse

  /** How an event takes the disk from one state to the next, whatever fails on the way. */
  ghost predicate Effect(before: Disk, event: Event, after: Disk, read: SuperblockReader) {
    match event
    case HostStart(n, luck) => after == before.(image := Ensured(before.image, n, luck))
    case HostResize(n, luck) => after == before.(image := Resized(before.image, n, luck))
    case Boot(tools) =>
      && before.image.Some? && ToolsOk(tools, before.image.value, read)
      && var Outcome(result, image) := Booted(before.image.value, read, tools);
         after == Disk(Some(image), before.formats + if StartsMkfs(result) then 1 else 0)
    case GuestUse =>
      && after.formats == before.formats && before.image.Some? && after.image.Some?
      && |after.image.value| == |before.image.value|
      && (DiskLabel(before.image.value, read).Some? ==> DiskLabel(after.image.value, read).Some?)
  }

  predicate Allowed(event: Event) {
    event.HostResize? ==> event.newSizeGB < SIZE_LIMIT
  }

  /** A life without sizes at or above the limit: states[0], events[0], states[1], ... */
  ghost predicate Life(states: seq<Disk>, events: seq<Event>, read: SuperblockReader) {
    && |states| == |events| + 1
    && forall k | 0 <= k < |events| :: Effect(states[k], events[k], states[k + 1], read) && Allowed(events[k])
  }

  lemma LaterLife(states: seq<Disk>, events: seq<Event>, read: SuperblockReader)
    requires Life(states, events, read) && events != []
    ensures Effect(states[0], events[0], states[1], read) && Allowed(events[0])
    ensures Life(states[1..], events[1..], read)
  {
    hide Effect;
    forall k | 0 <= k < |events[1..]|
      ensures Effect(states[1..][k], events[1..][k], states[1..][k + 1], read) && Allowed(events[1..][k])
    {
      assert Effect(states[k + 1], events[k + 1], states[k + 2], read) && Allowed(events[k + 1]);
    }
  }

  lemma HostKeepsSuperblock(before: Image, after: Image, read: SuperblockReader)
    requires before <= after
    ensures KeepsData(before, after)
    ensures DiskLabel(before, read).Some? ==> DiskLabel(after, read) == DiskLabel(before, read)
  {
    if |before| >= SUPERBLOCK_END {
      assert after[SUPERBLOCK_START..SUPERBLOCK_END] == before[SUPERBLOCK_START..SUPERBLOCK_END];
    }
  }

  /** What one event keeps of an existing disk. */
  lemma EventKeeps(before: Disk, event: Event, after: Disk, read: SuperblockReader)
    requires Effect(before, event, after, read) && Allowed(event) && before.image.Some?
    ensures after.image.Some? && |after.image.value| >= |before.image.value|
    ensures event.HostStart? || event.HostResize? ==> before.image.value <= after.image.value
    ensures DiskLabel(before.image.value, read).Some? ==>
      && DiskLabel(after.image.value, read).Some? && after.formats == before.formats
      && (!event.GuestUse? ==> KeepsData(before.image.value, after.image.value))
  {
    hide DiskLabel, SizeBytes, Booted, ToolsOk;
    match event
    case Boot(tools) => BootIsSafe(before.image.value, read, tools);
    case GuestUse =>
    case HostStart(_, _) => HostKeepsSuperblock(before.image.value, after.image.value, read);
    case HostResize(_, _) => HostKeepsSuperblock(before.image.value, after.image.value, read);
  }

  /** An existing disk never shrinks, formatted or not, whoever works on it. */
  lemma {:induction false} DiskNeverShrinks(states: seq<Disk>, events: seq<Event>, read: SuperblockReader)
    requires Life(states, events, read) && states[0].image.Some?
    ensures states[|events|].image.Some? && |states[|events|].image.value| >= |states[0].image.value|
    decreases |events|
  {
    if events == [] {
    } else {
      hide Effect;
      LaterLife(states, events, read);
      EventKeeps(states[0], events[0], states[1], read);
      DiskNeverShrinks(states[1..], events[1..], read);
    }
  }

  /** Host commands, in any order and number, only ever append to an existing disk, formatted or not. */
  lemma {:induction false} HostOnlyAppends(states: seq<Disk>, events: seq<Event>, read: SuperblockReader)
    requires Life(states, events, read) && states[0].image.Some?
    requires forall k | 0 <= k < |events| :: events[k].HostStart? || events[k].HostResize?
    ensures states[|events|].image.Some? && states[0].image.value <= states[|events|].image.value
    decreases |events|
  {
    if events == [] {
    } else {
      hide Effect;
      LaterLife(states, events, read);
      EventKeeps(states[0], events[0], states[1], read);
      HostOnlyAppends(states[1..], events[1..], read);
    }
  }

  /**
   * Once the disk carries a valid superblock no later boot formats it, over every sequence of starts,
   * resizes below the limit, boots and guest activity; and as long as the guest itself writes nothing,
   * every byte outside the superblock stays.
   */
  lemma {:induction false} FormattedDiskIsSafe(states: seq<Disk>, events: seq<Event>, read: SuperblockReader)
    requires Life(states, events, read)
    requires states[0].image.Some? && DiskLabel(states[0].image.value, read).Some?
    ensures
      var last := states[|events|];
      && last.formats == states[0].formats
      && last.image.Some? && DiskLabel(last.image.value, read).Some?
      && |last.image.value| >= |states[0].image.value|
      && (GuestUse !in events ==> KeepsData(states[0].image.value, last.image.value))
    decreases |events|
  {
    hide DiskLabel, Effect;
    if events == [] {
    } else {
      LaterLife(states, events, read);
      EventKeeps(states[0], events[0], states[1], read);
      FormattedDiskIsSafe(states[1..], events[1..], read);
    }
  }

  /** So a disk is formatted successfully at most once in its life: after that, mkfs is never started again. */
  lemma FormattedOnce(states: seq<Disk>, events: seq<Event>, read: SuperblockReader, k: nat)
    requires Life(states, events, read) && k < |events| && events[k].Boot?
    requires states[k].image.Some? && |events[k].tools.e2label.superblock| == SUPERBLOCK_END - SUPERBLOCK_START
    requires Booted(states[k].image.value, read, events[k].tools).result.Formatted?
    ensures states[|events|].formats == states[k + 1].formats
  {
    hide DiskLabel, Booted;
    assert Effect(states[k], events[k], states[k + 1], read);
    BootIsSafe(states[k].image.value, read, events[k].tools);
    var later, rest := states[k + 1..], events[k + 1..];
    forall i | 0 <= i < |rest| ensures Effect(later[i], rest[i], later[i + 1], read) && Allowed(rest[i]) {
      assert Effect(states[k + 1 + i], events[k + 1 + i], states[k + 2 + i], read) && Allowed(events[k + 1 + i]);
    }
    FormattedDiskIsSafe(later, rest, read);
  }
}
