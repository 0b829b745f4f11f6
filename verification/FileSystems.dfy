/** The file systems: the worker's map of devices, refreshed from the mount list, and the table that
    shows it. */
module FileSystems {
  import opened Common
  import opened TableDiff

  const U64: int := 0x1_0000_0000_0000_0000
  const I32: int := 0x8000_0000

  /** A mount entry with what the file system says about its usage, in blocks. */
  datatype MountEntry = MountEntry(devName: string, mountDir: string, diskType: string,
                                   blocks: nat, blockSize: nat, bfree: nat, bavail: nat)

  datatype Usage = Usage(total: nat, free: nat, avail: nat, used: nat, percentage: nat)

  datatype FileSystemData = FileSystemData(devName: string, mountDir: string, diskType: string, usage: Usage)

  // ---------------------------------------------------------------- usage

  function Clamp(n: int): (percentage: nat)
    ensures percentage <= 100
  {
    if n < 0 then 0 else if n > 100 then 100 else n
  }

  /** The low 32 bits as a signed number. */
  function ToInt32(n: nat): int {
    var low := n % (2 * I32);
    if low < I32 then low else low - 2 * I32
  }

  function Bytes(blocks: nat, e: MountEntry): nat {
    (blocks * e.blockSize) % U64
  }

  function UsedBytes(total: nat, free: nat): nat {
    (total - free) % U64
  }

  /** What the used bytes are divided by. */
  function Divisor(used: nat, avail: nat): nat {
    (used + avail) % U64
  }

  function Quotient(used: nat, avail: nat): nat
    requires Divisor(used, avail) != 0
  {
    (100 * used) % U64 / Divisor(used, avail)
  }

  function Percentage(used: nat, avail: nat): (percentage: nat)
    requires Divisor(used, avail) != 0
    ensures percentage <= 100
  {
    Clamp(ToInt32(Quotient(used, avail)))
  }

  /** Whether the usage can be computed without a division by zero. */
  predicate Measurable(e: MountEntry) {
    Bytes(e.blocks, e) == 0 || Divisor(UsedBytes(Bytes(e.blocks, e), Bytes(e.bfree, e)), Bytes(e.bavail, e)) != 0
  }

  function FsUsageStats(e: MountEntry): Usage
    requires Measurable(e)
  {
    var total, free, avail := Bytes(e.blocks, e), Bytes(e.bfree, e), Bytes(e.bavail, e);
    if total == 0 then Usage(0, 0, 0, 0, 0)
    else Usage(total, free, avail, UsedBytes(total, free), Percentage(UsedBytes(total, free), avail))
  }

  lemma AtMost(q: nat, d: nat)
    requires q * d <= 100 * d && d > 0
    ensures q <= 100
  {
  }

  /** The used share of what users can have, in percent. */
  function Percent(used: nat, avail: nat): int {
    if used + avail == 0 then 0 else 100 * used / (used + avail)
  }

  lemma ShareIsAtMost(used: nat, avail: nat)
    requires used + avail > 0
    ensures 100 * used / (used + avail) <= 100
  {
    var q := 100 * used / (used + avail);
    assert q * (used + avail) <= 100 * used;
    AtMost(q, used + avail);
  }

  lemma LessFactor(a: nat, b: nat, d: nat)
    requires a * d < b * d
    ensures a < b
  {
  }

  lemma LessByDivisor(r: nat, n: nat, d: nat)
    requires d > 0 && r + d <= n
    ensures r / d < n / d
  {
    var q, m := r / d, n / d;
    assert (q + 1) * d <= n < (m + 1) * d;
    LessFactor(q + 1, m + 1, d);
  }

  lemma SmallStays(q: nat)
    requires q <= 100
    ensures Clamp(ToInt32(q)) == q
  {
  }

  /** The quotient before and after the overflow. */
  lemma OverflowLowers(n: nat, d: nat)
    requires 0 < d < U64
    ensures (n % U64) / d <= n / d
    ensures (n % U64) / d == n / d <==> n < U64
  {
    if n >= U64 {
      LessByDivisor(n % U64, n, d);
    }
  }

  lemma DivisorIsSum(used: nat, avail: nat)
    requires used + avail < U64
    ensures Divisor(used, avail) == used + avail
  {
  }

  lemma QuotientIff(used: nat, avail: nat)
    requires used + avail > 0 && Divisor(used, avail) == used + avail < U64
    ensures Quotient(used, avail) <= Percent(used, avail) <= 100
    ensures Quotient(used, avail) == Percent(used, avail) <==> 100 * used < U64
  {
    ShareIsAtMost(used, avail);
    OverflowLowers(100 * used, used + avail);
  }

  /** Without an overflow the percentage is the share; with one it is always too small. */
  lemma PercentageIff(used: nat, avail: nat)
    requires 0 < used + avail < U64
    ensures Divisor(used, avail) == used + avail
    ensures Percentage(used, avail) <= Percent(used, avail)
    ensures Percentage(used, avail) == Percent(used, avail) <==> 100 * used < U64
  {
    DivisorIsSum(used, avail);
    QuotientIff(used, avail);
    SmallStays(Quotient(used, avail));
  }

  lemma UsedIsDifference(total: nat, free: nat)
    requires free <= total < U64
    ensures UsedBytes(total, free) == total - free
  {
  }

  /** The usage of a file system of any size.  It cannot be computed exactly if used and available bytes add up
      to 0 or to 2^64; the used bytes are right exactly if no more are free than there are; and then, as long as
      used and available bytes stay below 2^64, the percentage is the used share, rounded down, exactly if a
      hundred times the used bytes do. */
  lemma UsageIsExact(e: MountEntry, total: nat, free: nat, avail: nat, used: nat)
    requires total == Bytes(e.blocks, e) && free == Bytes(e.bfree, e) && avail == Bytes(e.bavail, e) && used == UsedBytes(total, free)
    ensures Measurable(e) <==> total == 0 || (used + avail != 0 && used + avail != U64)
    ensures total > 0 && Measurable(e) ==> FsUsageStats(e).used == used
    ensures used == total - free <==> free <= total
    ensures total > 0 && 0 < used + avail < U64 ==> (FsUsageStats(e).percentage == Percent(used, avail) <==> 100 * used < U64)
  {
    DivisorIsZero(used, avail);
    if free <= total {
      UsedIsDifference(total, free);
    }
    if 0 < used + avail < U64 {
      PercentageIff(used, avail);
    }
  }

  lemma DivisorIsZero(used: nat, avail: nat)
    requires used < U64 && avail < U64
    ensures Divisor(used, avail) == 0 <==> used + avail == 0 || used + avail == U64
  {
  }

  /** The sizes shown of a file system are its numbers of blocks times the block size, as far as these fit in
      64 bits; one without bytes shows nothing at all. */
  ghost predicate ShowsSizes(u: Usage, e: MountEntry) {
    if (e.blocks * e.blockSize) % 0x1_0000_0000_0000_0000 == 0 then u == Usage(0, 0, 0, 0, 0)
    else
      && SizeOf(u.total, e.blocks, e.blockSize) && SizeOf(u.free, e.bfree, e.blockSize) && SizeOf(u.avail, e.bavail, e.blockSize)
      && (u.free <= u.total ==> u.used + u.free == u.total)
  }

  /** The product, without what does not fit in 64 bits. */
  ghost predicate SizeOf(bytes: nat, blocks: nat, blockSize: nat) {
    && bytes < 0x1_0000_0000_0000_0000 && bytes == (blocks * blockSize) % 0x1_0000_0000_0000_0000
    && (blocks * blockSize < 0x1_0000_0000_0000_0000 ==> bytes == blocks * blockSize)
  }

  lemma BytesAreSize(blocks: nat, e: MountEntry)
    ensures SizeOf(Bytes(blocks, e), blocks, e.blockSize)
  {
    var n := blocks * e.blockSize;
    assert Bytes(blocks, e) == n % U64;
  }

  lemma UsageShowsSizes(e: MountEntry)
    requires Measurable(e)
    ensures ShowsSizes(FsUsageStats(e), e)
  {
    BytesAreSize(e.blocks, e);
    BytesAreSize(e.bfree, e);
    BytesAreSize(e.bavail, e);
    if Bytes(e.bfree, e) <= Bytes(e.blocks, e) {
      UsedIsDifference(Bytes(e.blocks, e), Bytes(e.bfree, e));
    }
  }

  /** A full file system of 2^58 bytes is shown as used to 36 percent. */
  lemma PercentageOverflows()
    ensures var e := MountEntry("/dev/sdb1", "/data", "ext4", 0x4000_0000_0000, 4096, 0, 0);
            Wanted(e) && Measurable(e) && FsUsageStats(e).percentage == 36 && Percent(FsUsageStats(e).used, 0) == 100
  {
    var e := MountEntry("/dev/sdb1", "/data", "ext4", 0x4000_0000_0000, 4096, 0, 0);
    var used := 0x400_0000_0000_0000;
    assert Bytes(e.blocks, e) == used && Bytes(0, e) == 0 && UsedBytes(used, 0) == used;
    assert (100 * used) % U64 == 100 * used - U64;
    assert Divisor(used, 0) == used && Quotient(used, 0) == 36;
    assert Percent(used, 0) == 100;
  }

  /** A file system whose one block is free, but not available to users: its share divides by zero. */
  lemma UsageCannotBeComputed()
    ensures var e := MountEntry("/dev/sda1", "/boot", "ext4", 1, 1024, 1, 0);
            Wanted(e) && !Measurable(e) && !AllMeasurable([e])
  {
    var e := MountEntry("/dev/sda1", "/boot", "ext4", 1, 1024, 1, 0);
    assert Bytes(1, e) == 1024 && Bytes(0, e) == 0;
    assert e in [e];
  }

  // ---------------------------------------------------------------- the worker

  /** strstr finds "tmpfs" in the type. */
  predicate HasTmpfs(s: string) {
    |s| >= 5 && (s[..5] == "tmpfs" || HasTmpfs(s[1..]))
  }

  predicate Wanted(e: MountEntry) {
    e.blocks != 0 && e.devName != "none" && e.devName != "tmpfs" && !HasTmpfs(e.diskType)
  }

  /** "tmpfs" begins at this place. */
  predicate TmpfsAt(s: string, i: int) {
    0 <= i <= |s| - 5 && s[i..i + 5] == "tmpfs"
  }

  lemma TmpfsAtNext(s: string, i: int)
    requires |s| >= 5
    ensures TmpfsAt(s[1..], i) ==> TmpfsAt(s, i + 1)
    ensures TmpfsAt(s, i) ==> if i == 0 then s[..5] == "tmpfs" else TmpfsAt(s[1..], i - 1)
    ensures s[..5] == "tmpfs" ==> TmpfsAt(s, 0)
  {
    assert 0 <= i <= |s[1..]| - 5 ==> s[1..][i..i + 5] == s[i + 1..i + 1 + 5];
    assert 1 <= i <= |s| - 5 ==> s[1..][i - 1..i - 1 + 5] == s[i..i + 5];
    assert s[0..0 + 5] == s[..5];
  }

  lemma {:induction false} TmpfsIff(s: string)
    ensures HasTmpfs(s) <==> exists i :: TmpfsAt(s, i)
    decreases s
  {
    if |s| >= 5 {
      TmpfsIff(s[1..]);
      TmpfsAtNext(s, 0);
      if i :| TmpfsAt(s[1..], i) {
        TmpfsAtNext(s, i);
      }
      if i :| TmpfsAt(s, i) {
        TmpfsAtNext(s, i);
      }
    }
  }

  /** Only entries with blocks are shown, of devices with a name of their own, and none whose type contains
      "tmpfs". */
  lemma WantedIff(e: MountEntry)
    ensures Wanted(e) <==> e.blocks > 0 && e.devName !in ["none", "tmpfs"] && forall i :: !TmpfsAt(e.diskType, i)
  {
    TmpfsIff(e.diskType);
    assert "none" in ["none", "tmpfs"] && "tmpfs" in ["none", "tmpfs"];
  }

  /** The last wanted entry of a device. */
  function LastOf(entries: seq<MountEntry>, dev: string): Option<MountEntry> {
    if entries == [] then None
    else if Wanted(entries[|entries| - 1]) && entries[|entries| - 1].devName == dev then Some(entries[|entries| - 1])
    else LastOf(entries[..|entries| - 1], dev)
  }

  /** The first one. */
  function FirstOf(entries: seq<MountEntry>, dev: string): Option<MountEntry> {
    if entries == [] then None
    else
      var before := FirstOf(entries[..|entries| - 1], dev);
      if before.Some? then before
      else if Wanted(entries[|entries| - 1]) && entries[|entries| - 1].devName == dev then Some(entries[|entries| - 1])
      else None
  }

  lemma {:induction false} FirstAndLast(entries: seq<MountEntry>, dev: string)
    ensures FirstOf(entries, dev).Some? <==> LastOf(entries, dev).Some?
    ensures LastOf(entries, dev).Some? ==> LastOf(entries, dev).value in entries && Wanted(LastOf(entries, dev).value)
  {
    if entries != [] {
      FirstAndLast(entries[..|entries| - 1], dev);
      assert entries == entries[..|entries| - 1] + [entries[|entries| - 1]];
    }
  }

  predicate IsOf(e: MountEntry, dev: string) {
    Wanted(e) && e.devName == dev
  }

  /** It has no later one, and the first one no earlier one. */
  lemma {:induction false} LastIsLast(entries: seq<MountEntry>, dev: string, i: nat)
    requires i < |entries| && IsOf(entries[i], dev)
    ensures (forall k :: i < k < |entries| ==> !IsOf(entries[k], dev)) ==> LastOf(entries, dev) == Some(entries[i])
    ensures (forall k :: 0 <= k < i ==> !IsOf(entries[k], dev)) ==> FirstOf(entries, dev) == Some(entries[i])
  {
    var front := entries[..|entries| - 1];
    if i < |front| {
      LastIsLast(front, dev, i);
      assert front[i] == entries[i];
    } else if forall k :: 0 <= k < i ==> !IsOf(entries[k], dev) {
      NoneIsOf(front, dev);
    }
  }

  lemma {:induction false} NoneIsOf(entries: seq<MountEntry>, dev: string)
    requires forall k :: 0 <= k < |entries| ==> !IsOf(entries[k], dev)
    ensures FirstOf(entries, dev) == None == LastOf(entries, dev)
  {
    if entries != [] {
      NoneIsOf(entries[..|entries| - 1], dev);
    }
  }

  /** The usage of every wanted entry can be computed. */
  predicate AllMeasurable(entries: seq<MountEntry>) {
    forall e :: e in entries && Wanted(e) ==> Measurable(e)
  }

  /** What is known of a device after some entries: usage and type of its last entry, but the mount
      point it was first seen with. */
  function Known(before: map<string, FileSystemData>, entries: seq<MountEntry>, dev: string): Option<FileSystemData>
    requires AllMeasurable(entries)
  {
    FirstAndLast(entries, dev);
    match LastOf(entries, dev)
    case None => if dev in before then Some(before[dev]) else None
    case Some(e) =>
      var mountDir := if dev in before then before[dev].mountDir else FirstOf(entries, dev).value.mountDir;
      Some(FileSystemData(dev, mountDir, e.diskType, FsUsageStats(e)))
  }

  lemma KnownNext(before: map<string, FileSystemData>, entries: seq<MountEntry>, i: nat, dev: string)
    requires i < |entries| && AllMeasurable(entries[..i + 1])
    ensures AllMeasurable(entries[..i])
    ensures var e := entries[i];
            var now := Known(before, entries[..i], dev);
            Known(before, entries[..i + 1], dev) ==
            if Wanted(e) && e.devName == dev then
              Some(FileSystemData(dev, if now.Some? then now.value.mountDir else e.mountDir, e.diskType, FsUsageStats(e)))
            else now
  {
    assert entries[..i + 1][..i] == entries[..i];
    FirstAndLast(entries[..i], dev);
  }

  /** The map has what is known of every device. */
  ghost predicate Shows(before: map<string, FileSystemData>, entries: seq<MountEntry>, now: map<string, FileSystemData>)
    requires AllMeasurable(entries)
  {
    forall dev :: Known(before, entries, dev) == if dev in now then Some(now[dev]) else None
  }

  /** A row shows the type and the sizes of the entry. */
  ghost predicate ShowsEntry(d: FileSystemData, e: MountEntry) {
    d.devName == e.devName && d.diskType == e.diskType && ShowsSizes(d.usage, e)
  }

  lemma KnownShowsEntry(before: map<string, FileSystemData>, entries: seq<MountEntry>, dev: string)
    requires AllMeasurable(entries) && LastOf(entries, dev).Some?
    ensures Known(before, entries, dev).Some? && ShowsEntry(Known(before, entries, dev).value, LastOf(entries, dev).value)
  {
    FirstAndLast(entries, dev);
    LastNamed(entries, dev);
    UsageShowsSizes(LastOf(entries, dev).value);
  }

  lemma {:induction false} LastNamed(entries: seq<MountEntry>, dev: string)
    ensures LastOf(entries, dev).Some? ==> LastOf(entries, dev).value.devName == dev
  {
    if entries != [] {
      LastNamed(entries[..|entries| - 1], dev);
    }
  }

  lemma MoreMeasurable(entries: seq<MountEntry>, i: nat)
    requires i < |entries| && AllMeasurable(entries[..i]) && (Wanted(entries[i]) ==> Measurable(entries[i]))
    ensures AllMeasurable(entries[..i + 1])
  {
    assert entries[..i + 1] == entries[..i] + [entries[i]];
  }

  lemma ShowsNext(before: map<string, FileSystemData>, entries: seq<MountEntry>, i: nat,
                  now: map<string, FileSystemData>, next: map<string, FileSystemData>)
    requires i < |entries| && AllMeasurable(entries[..i]) && (Wanted(entries[i]) ==> Measurable(entries[i]))
    requires Shows(before, entries[..i], now)
    requires var e := entries[i];
             next == if !Wanted(e) then now
                     else now[e.devName := FileSystemData(e.devName, if e.devName in now then now[e.devName].mountDir else e.mountDir,
                                                          e.diskType, FsUsageStats(e))]
    ensures AllMeasurable(entries[..i + 1]) && Shows(before, entries[..i + 1], next)
  {
    MoreMeasurable(entries, i);
    forall dev ensures Known(before, entries[..i + 1], dev) == if dev in next then Some(next[dev]) else None {
      KnownNext(before, entries, i, dev);
      assert Known(before, entries[..i], dev) == if dev in now then Some(now[dev]) else None;
    }
  }

  /** These are the devices of the wanted entries. */
  ghost predicate ListedIn(names: seq<string>, entries: seq<MountEntry>) {
    forall dev :: dev in names <==> LastOf(entries, dev).Some?
  }

  lemma ListedNext(names: seq<string>, entries: seq<MountEntry>, i: nat)
    requires i < |entries| && ListedIn(names, entries[..i])
    ensures ListedIn(if Wanted(entries[i]) then names + [entries[i].devName] else names, entries[..i + 1])
  {
    assert entries[..i + 1][..i] == entries[..i] && entries[..i + 1][i] == entries[i];
  }

  /** Once the devices that are gone are removed, the map is that of a refresh. */
  lemma GoneRemoved(before: map<string, FileSystemData>, entries: seq<MountEntry>, names: seq<string>,
                    now: map<string, FileSystemData>, next: map<string, FileSystemData>)
    requires AllMeasurable(entries) && ListedIn(names, entries) && Shows(before, entries, now)
    requires forall dev :: dev in next <==> dev in now && dev in names
    requires forall dev :: dev in next ==> next[dev] == now[dev]
    ensures forall dev :: dev in next <==> LastOf(entries, dev).Some?
    ensures forall dev :: dev in next ==> Known(before, entries, dev) == Some(next[dev])
    ensures next == Refreshed(before, entries)
  {
    forall dev
      ensures dev in next <==> LastOf(entries, dev).Some?
      ensures dev in next ==> Known(before, entries, dev) == Some(next[dev])
    {
      assert Known(before, entries, dev) == if dev in now then Some(now[dev]) else None;
    }
    SameAsRefreshed(before, entries, next);
  }

  lemma SameAsRefreshed(before: map<string, FileSystemData>, entries: seq<MountEntry>, now: map<string, FileSystemData>)
    requires AllMeasurable(entries) && forall dev :: dev in now <==> Present(entries, dev)
    requires forall dev :: dev in now ==> Known(before, entries, dev) == Some(now[dev])
    ensures now == Refreshed(before, entries)
  {
    forall dev ensures dev in now <==> dev in Refreshed(before, entries) {
      RefreshedHas(before, entries, dev);
    }
    forall dev | dev in now ensures now[dev] == Refreshed(before, entries)[dev] {
      RefreshedHas(before, entries, dev);
    }
  }

  // ---------------------------------------------------------------- a run of refreshes

  /** The map after one refresh: what is known of the devices of wanted entries. */
  function Refreshed(before: map<string, FileSystemData>, entries: seq<MountEntry>): map<string, FileSystemData>
    requires AllMeasurable(entries)
  {
    map dev | dev in (set e | e in entries && Wanted(e) :: e.devName) && Known(before, entries, dev).Some? :: Known(before, entries, dev).value
  }

  predicate Present(entries: seq<MountEntry>, dev: string) {
    LastOf(entries, dev).Some?
  }

  lemma {:induction false} PresentIff(entries: seq<MountEntry>, dev: string)
    ensures Present(entries, dev) <==> exists e :: e in entries && Wanted(e) && e.devName == dev
  {
    if entries != [] {
      var front, last := entries[..|entries| - 1], entries[|entries| - 1];
      PresentIff(front, dev);
      assert entries == front + [last];
      if Present(front, dev) {
        var e :| e in front && Wanted(e) && e.devName == dev;
        assert e in entries;
      }
    }
  }

  /** A refresh lists exactly the devices present, each as it is known. */
  lemma RefreshedHas(before: map<string, FileSystemData>, entries: seq<MountEntry>, dev: string)
    requires AllMeasurable(entries)
    ensures dev in Refreshed(before, entries) <==> Present(entries, dev)
    ensures Present(entries, dev) ==> Known(before, entries, dev) == Some(Refreshed(before, entries)[dev])
  {
    PresentIff(entries, dev);
  }

  predicate AllListsMeasurable(lists: seq<seq<MountEntry>>) {
    forall i :: 0 <= i < |lists| ==> AllMeasurable(lists[i])
  }

  /** The map after a run of refreshes. */
  function ShownAfter(lists: seq<seq<MountEntry>>): map<string, FileSystemData>
    requires AllListsMeasurable(lists)
  {
    if lists == [] then map[] else Refreshed(ShownAfter(lists[..|lists| - 1]), lists[|lists| - 1])
  }

  /** The device is present from refresh k on, and was not before it. */
  predicate PresentSince(lists: seq<seq<MountEntry>>, k: nat, dev: string) {
    && k < |lists| && (forall i :: k <= i < |lists| ==> Present(lists[i], dev))
    && (k > 0 ==> !Present(lists[k - 1], dev))
  }

  /** The mount point of the first wanted entry of a device. */
  function FirstMountDir(entries: seq<MountEntry>, dev: string): string
    requires Present(entries, dev)
  {
    FirstAndLast(entries, dev);
    FirstOf(entries, dev).value.mountDir
  }

  lemma MountPointKept(before: map<string, FileSystemData>, entries: seq<MountEntry>, dev: string)
    requires AllMeasurable(entries) && Present(entries, dev)
    ensures dev in Refreshed(before, entries)
    ensures Refreshed(before, entries)[dev].mountDir == if dev in before then before[dev].mountDir else FirstMountDir(entries, dev)
  {
    RefreshedHas(before, entries, dev);
    FirstAndLast(entries, dev);
  }

  lemma ShownIff(lists: seq<seq<MountEntry>>, dev: string)
    requires AllListsMeasurable(lists)
    ensures dev in ShownAfter(lists) <==> lists != [] && Present(lists[|lists| - 1], dev)
  {
    if lists != [] {
      RefreshedHas(ShownAfter(lists[..|lists| - 1]), lists[|lists| - 1], dev);
    }
  }

  /** Whatever happened to the mounts since, the mount point shown is that of the first wanted entry of the
      refresh in which the device appeared. */
  lemma {:induction false} MountPointIsFirst(lists: seq<seq<MountEntry>>, k: nat, dev: string)
    requires AllListsMeasurable(lists) && PresentSince(lists, k, dev)
    ensures dev in ShownAfter(lists) && ShownAfter(lists)[dev].mountDir == FirstMountDir(lists[k], dev)
  {
    var front := lists[..|lists| - 1];
    MountPointKept(ShownAfter(front), lists[|lists| - 1], dev);
    if k == |front| {
      ShownIff(front, dev);
    } else {
      MountPointIsFirst(front, k, dev);
    }
  }

  lemma {:induction false} HasAppeared(lists: seq<seq<MountEntry>>, dev: string) returns (k: nat)
    requires lists != [] && Present(lists[|lists| - 1], dev)
    ensures PresentSince(lists, k, dev)
  {
    var front := lists[..|lists| - 1];
    if front != [] && Present(front[|front| - 1], dev) {
      k := HasAppeared(front, dev);
      assert forall i :: k <= i < |front| ==> front[i] == lists[i];
    } else {
      k := |lists| - 1;
    }
  }

  /** So the mount point shown of a device is the one it has now, that of its last wanted entry, exactly if
      the device had that one when it appeared. */
  lemma MountPointIsRightIff(lists: seq<seq<MountEntry>>, dev: string) returns (k: nat)
    requires AllListsMeasurable(lists) && dev in ShownAfter(lists)
    ensures PresentSince(lists, k, dev)
    ensures var now := LastOf(lists[|lists| - 1], dev).value.mountDir;
            ShownAfter(lists)[dev].mountDir == now <==> FirstMountDir(lists[k], dev) == now
  {
    ShownIff(lists, dev);
    k := HasAppeared(lists, dev);
    MountPointIsFirst(lists, k, dev);
  }

  lemma OneEntry(e: MountEntry)
    requires Wanted(e)
    ensures LastOf([e], e.devName) == Some(e) == FirstOf([e], e.devName)
  {
    assert [e][..0] == [];
  }

  /** A device that is moved from /mnt to /media between two refreshes is still shown at /mnt. */
  lemma MovedMountIsNotShown()
    ensures var at := MountEntry("/dev/sdb1", "/mnt", "ext4", 1, 1024, 0, 0);
            var moved := at.(mountDir := "/media");
            var lists := [[at], [moved]];
            AllListsMeasurable(lists) && LastOf(lists[1], at.devName) == Some(moved) && at.devName in ShownAfter(lists) &&
            ShownAfter(lists)[at.devName].mountDir == at.mountDir != moved.mountDir
  {
    var at := MountEntry("/dev/sdb1", "/mnt", "ext4", 1, 1024, 0, 0);
    var moved := at.(mountDir := "/media");
    MoveNotShown(at, moved);
    assert |at.mountDir| != |moved.mountDir|;
  }

  lemma MoveNotShown(at: MountEntry, moved: MountEntry)
    requires Wanted(at) && Measurable(at) && Wanted(moved) && Measurable(moved) && at.devName == moved.devName
    ensures var lists := [[at], [moved]];
            AllListsMeasurable(lists) && LastOf(lists[1], at.devName) == Some(moved) && at.devName in ShownAfter(lists) &&
            ShownAfter(lists)[at.devName].mountDir == at.mountDir
  {
    OneEntry(at);
    OneEntry(moved);
    MountPointIsFirst([[at], [moved]], 0, at.devName);
  }

  class FileSystemWorker {
    var diskInfoList: map<string, FileSystemData>

    constructor ()
      ensures diskInfoList == map[]
    {
      diskInfoList := map[];
    }

    method AddDisk(e: MountEntry)
      requires Measurable(e) && Wanted(e)
      modifies this
      ensures diskInfoList == old(diskInfoList)[e.devName := FileSystemData(e.devName,
                if e.devName in old(diskInfoList) then old(diskInfoList)[e.devName].mountDir else e.mountDir, e.diskType, FsUsageStats(e))]
    {
      if e.devName !in diskInfoList {
        diskInfoList := diskInfoList[e.devName := FileSystemData(e.devName, e.mountDir, e.diskType, FsUsageStats(e))];
      } else {
        var info := diskInfoList[e.devName];
        info := FileSystemData(e.devName, info.mountDir, e.diskType, FsUsageStats(e));
        diskInfoList := diskInfoList[e.devName := info];
      }
    }

    /** Removes the devices that no entry names any more. */
    method RemoveGone(newDiskList: seq<string>)
      modifies this
      ensures forall dev :: dev in diskInfoList <==> dev in old(diskInfoList) && dev in newDiskList
      ensures forall dev :: dev in diskInfoList ==> diskInfoList[dev] == old(diskInfoList)[dev]
    {
      var left := diskInfoList.Keys;
      while left != {}
        invariant left <= diskInfoList.Keys <= old(diskInfoList).Keys
        invariant forall dev :: dev in diskInfoList ==> diskInfoList[dev] == old(diskInfoList)[dev]
        invariant forall dev :: dev in old(diskInfoList) && (dev in newDiskList || dev in left) ==> dev in diskInfoList
        invariant forall dev :: dev in diskInfoList ==> dev in newDiskList || dev in left
        decreases left
      {
        var device :| device in left;
        left := left - {device};
        var foundDevice := false;
        for i := 0 to |newDiskList|
          invariant !foundDevice && device !in newDiskList[..i]
        {
          if newDiskList[i] == device {
            foundDevice := true;
            break;
          }
        }
        if !foundDevice {
          assert newDiskList[..|newDiskList|] == newDiskList;
          diskInfoList := diskInfoList - {device};
        }
      }
    }

    /** One entry of the mount list; a usage that cannot be computed ends the program. */
    method TakeEntry(e: MountEntry) returns (ended: bool)
      modifies this
      ensures ended == (Wanted(e) && !Measurable(e))
      ensures diskInfoList == if !Wanted(e) || ended then old(diskInfoList)
                              else old(diskInfoList)[e.devName := FileSystemData(e.devName,
                                     if e.devName in old(diskInfoList) then old(diskInfoList)[e.devName].mountDir else e.mountDir,
                                     e.diskType, FsUsageStats(e))]
    {
      ended := false;
      if Wanted(e) {
        if !Measurable(e) {
          return true;
        }
        AddDisk(e);
      }
    }

    /** The map after a change of the mount list has exactly the devices of wanted entries, if the usage of
        all of these can be computed; otherwise the division by zero ends the program. */
    method OnFileSystemListChanged(entries: seq<MountEntry>) returns (ended: bool)
      modifies this
      ensures ended <==> !AllMeasurable(entries)
      ensures !ended ==> forall dev :: dev in diskInfoList <==> LastOf(entries, dev).Some?
      ensures !ended ==> forall dev :: dev in diskInfoList ==> Known(old(diskInfoList), entries, dev) == Some(diskInfoList[dev])
      ensures !ended ==> diskInfoList == Refreshed(old(diskInfoList), entries)
    {
      var newDiskList := [];
      var i := 0;
      ghost var before := diskInfoList;
      while i < |entries|
        invariant i <= |entries| && AllMeasurable(entries[..i])
        invariant ListedIn(newDiskList, entries[..i]) && Shows(before, entries[..i], diskInfoList)
      {
        ghost var now := diskInfoList;
        ended := TakeEntry(entries[i]);
        if ended {
          assert entries[i] in entries;
          return;
        }
        ShowsNext(before, entries, i, now, diskInfoList);
        ListedNext(newDiskList, entries, i);
        if Wanted(entries[i]) {
          newDiskList := newDiskList + [entries[i].devName];
        }
        i := i + 1;
      }
      ended := false;
      assert entries[..|entries|] == entries;
      ghost var shown := diskInfoList;
      RemoveGone(newDiskList);
      GoneRemoved(before, entries, newDiskList, shown, diskInfoList);
    }

    /** A run of changes of the mount list. */
    method FollowMounts(lists: seq<seq<MountEntry>>) returns (ended: bool)
      requires diskInfoList == map[]
      modifies this
      ensures ended <==> !AllListsMeasurable(lists)
      ensures !ended ==> diskInfoList == ShownAfter(lists)
    {
      for i := 0 to |lists|
        invariant AllListsMeasurable(lists[..i]) && diskInfoList == ShownAfter(lists[..i])
      {
        assert lists[..i + 1][..i] == lists[..i] && lists[..i + 1][i] == lists[i];
        ended := OnFileSystemListChanged(lists[i]);
        if ended {
          return;
        }
      }
      ended := false;
      assert lists[..|lists|] == lists;
    }

    /** The keys of the map, in some order. */
    method DiskDevNameList() returns (names: seq<string>)
      ensures Distinct(names) && forall dev :: dev in names <==> dev in diskInfoList
    {
      names := [];
      var left := diskInfoList.Keys;
      while left != {}
        invariant Distinct(names) && left <= diskInfoList.Keys
        invariant forall dev :: dev in diskInfoList <==> dev in names || dev in left
        invariant forall dev :: dev in names ==> dev !in left
        decreases left
      {
        var dev :| dev in left;
        left := left - {dev};
        names := names + [dev];
      }
    }

    method GetDiskInfo(dev: string) returns (info: Option<FileSystemData>)
      ensures info == if dev in diskInfoList then Some(diskInfoList[dev]) else None
    {
      info := if dev in diskInfoList then Some(diskInfoList[dev]) else None;
    }
  }

  // ---------------------------------------------------------------- the table

  class FileSystemModel {
    var devNameList: seq<string>
    var fileSystemDataList: seq<FileSystemData>
    const worker: FileSystemWorker

    ghost predicate Valid()
      reads this
    {
      |fileSystemDataList| == |devNameList| && Distinct(devNameList)
    }

    constructor (worker: FileSystemWorker)
      ensures Valid() && devNameList == [] && this.worker == worker
    {
      devNameList, fileSystemDataList := [], [];
      this.worker := worker;
    }

    /** The row of a known device is updated, or appended. */
    method ShowDevice(dev: string) returns (edit: Edit<string>)
      requires Valid() && dev in worker.diskInfoList
      modifies this
      ensures Valid() && devNameList == Apply(old(devNameList), edit)
      ensures devNameList == if dev in old(devNameList) then old(devNameList) else old(devNameList) + [dev]
      ensures edit == if dev in old(devNameList) then Changed(IndexOf(old(devNameList), dev)) else Inserted(|old(devNameList)|, dev)
      ensures var info := worker.diskInfoList[dev];
              fileSystemDataList == if dev in old(devNameList) then old(fileSystemDataList)[IndexOf(old(devNameList), dev) := info]
                                    else old(fileSystemDataList) + [info]
    {
      var row := IndexOf(devNameList, dev);
      var info := worker.GetDiskInfo(dev);
      if row < |devNameList| {
        if info.Some? {
          fileSystemDataList := fileSystemDataList[row := info.value];
        }
        edit := Changed(row);
      } else {
        if info.Some? {
          devNameList := devNameList + [dev];
          fileSystemDataList := fileSystemDataList + [info.value];
        }
        edit := Inserted(row, dev);
      }
    }

    method RemoveDevice(dev: string) returns (edit: Edit<string>)
      requires Valid() && dev in devNameList
      modifies this
      ensures Valid() && edit == Removed(IndexOf(old(devNameList), dev)) && devNameList == Apply(old(devNameList), edit)
      ensures var row := IndexOf(old(devNameList), dev);
              fileSystemDataList == old(fileSystemDataList)[..row] + old(fileSystemDataList)[row + 1..]
    {
      var row := IndexOf(devNameList, dev);
      devNameList := devNameList[..row] + devNameList[row + 1..];
      fileSystemDataList := fileSystemDataList[..row] + fileSystemDataList[row + 1..];
      edit := Removed(row);
    }

    /** What the worker knows of each name. */
    ghost function Infos(names: seq<string>): (infos: seq<FileSystemData>)
      requires forall dev :: dev in names ==> dev in worker.diskInfoList
      reads worker
      ensures |infos| == |names| && forall i :: 0 <= i < |names| ==> infos[i] == worker.diskInfoList[names[i]]
    {
      seq(|names|, i requires 0 <= i < |names| && names[i] in worker.diskInfoList reads worker => worker.diskInfoList[names[i]])
    }

    method ShowDevices(newDevNameList: seq<string>) returns (edits: seq<Edit<string>>)
      requires Valid() && Distinct(newDevNameList) && forall dev :: dev in newDevNameList ==> dev in worker.diskInfoList
      modifies this
      ensures Valid() && devNameList == Grown(old(devNameList), newDevNameList, |newDevNameList|)
      ensures Aligned(devNameList, fileSystemDataList, newDevNameList, Infos(newDevNameList), |newDevNameList|)
      ensures devNameList == Replay(old(devNameList), edits) && Announced(old(devNameList), newDevNameList, |newDevNameList|, edits)
    {
      edits := [];
      ghost var infos := Infos(newDevNameList);
      var i := 0;
      while i < |newDevNameList|
        invariant i <= |newDevNameList| && devNameList == Grown(old(devNameList), newDevNameList, i)
        invariant Valid() && devNameList == Replay(old(devNameList), edits)
        invariant Aligned(devNameList, fileSystemDataList, newDevNameList, infos, i) && Announced(old(devNameList), newDevNameList, i, edits)
      {
        ghost var names := devNameList;
        GrowRow(old(devNameList), newDevNameList, i);
        AlignedShown(devNameList, fileSystemDataList, newDevNameList, infos, i);
        var edit := ShowDevice(newDevNameList[i]);
        Follow(old(devNameList), edits, edit, names, devNameList);
        AnnouncedNext(old(devNameList), newDevNameList, i, edits, edit);
        edits := edits + [edit];
        i := i + 1;
      }
    }

    /** One old row stays, or goes. */
    method CheckRow(oldDevNameList: seq<string>, newDevNameList: seq<string>, j: nat, ghost infos: seq<FileSystemData>)
      returns (edits: seq<Edit<string>>)
      requires Valid() && Distinct(oldDevNameList) && Distinct(newDevNameList) && j < |oldDevNameList|
      requires devNameList == Checked(oldDevNameList, newDevNameList, j)
      requires Aligned(devNameList, fileSystemDataList, newDevNameList, infos, |newDevNameList|)
      modifies this
      ensures Valid() && devNameList == Checked(oldDevNameList, newDevNameList, j + 1) == Replay(old(devNameList), edits)
      ensures forall e :: e in edits ==> e.Removed?
      ensures Aligned(devNameList, fileSystemDataList, newDevNameList, infos, |newDevNameList|)
    {
      edits := [];
      RemoveRow(oldDevNameList, newDevNameList, j);
      if oldDevNameList[j] !in newDevNameList {
        AlignedRemoved(devNameList, fileSystemDataList, newDevNameList, infos, |newDevNameList|, IndexOf(devNameList, oldDevNameList[j]));
        var edit := RemoveDevice(oldDevNameList[j]);
        ReplayOne(old(devNameList), edit);
        edits := [edit];
      }
    }

    method RemoveDevices(oldDevNameList: seq<string>, newDevNameList: seq<string>, ghost infos: seq<FileSystemData>)
      returns (edits: seq<Edit<string>>)
      requires Valid() && Distinct(oldDevNameList) && Distinct(newDevNameList) &&
               devNameList == Checked(oldDevNameList, newDevNameList, 0)
      requires Aligned(devNameList, fileSystemDataList, newDevNameList, infos, |newDevNameList|)
      modifies this
      ensures Valid() && devNameList == Checked(oldDevNameList, newDevNameList, |oldDevNameList|)
      ensures Aligned(devNameList, fileSystemDataList, newDevNameList, infos, |newDevNameList|)
      ensures devNameList == Replay(old(devNameList), edits) && forall e :: e in edits ==> e.Removed?
    {
      edits := [];
      var j := 0;
      while j < |oldDevNameList|
        invariant j <= |oldDevNameList| && devNameList == Checked(oldDevNameList, newDevNameList, j)
        invariant Valid() && devNameList == Replay(old(devNameList), edits) && forall e :: e in edits ==> e.Removed?
        invariant Aligned(devNameList, fileSystemDataList, newDevNameList, infos, |newDevNameList|)
      {
        var more := CheckRow(oldDevNameList, newDevNameList, j, infos);
        ReplayJoins(old(devNameList), edits, more);
        edits := edits + more;
        j := j + 1;
      }
    }

    /** The table follows the map of the worker. */
    method FollowWorker() returns (newDevNameList: seq<string>, edits: seq<Edit<string>>)
      requires Valid()
      modifies this
      ensures Valid() && Distinct(newDevNameList) && forall dev :: dev in newDevNameList <==> dev in worker.diskInfoList
      ensures devNameList == Diff(old(devNameList), newDevNameList) == Replay(old(devNameList), edits)
      ensures Announced(old(devNameList), newDevNameList, |newDevNameList|, edits)
      ensures forall row :: 0 <= row < |devNameList| ==>
                devNameList[row] in worker.diskInfoList && fileSystemDataList[row] == worker.diskInfoList[devNameList[row]]
    {
      newDevNameList := worker.DiskDevNameList();
      var oldDevNameList := devNameList;
      ghost var infos := Infos(newDevNameList);
      var shown := ShowDevices(newDevNameList);
      AllGrown(oldDevNameList, newDevNameList);
      var removed := RemoveDevices(oldDevNameList, newDevNameList, infos);
      AllChecked(oldDevNameList, newDevNameList);
      edits := shown + removed;
      ReplayJoins(oldDevNameList, shown, removed);
      AnnouncedJoins(oldDevNameList, newDevNameList, |newDevNameList|, shown, removed);
      DiffKeys(oldDevNameList, newDevNameList);
      forall row | 0 <= row < |devNameList|
        ensures devNameList[row] in worker.diskInfoList && fileSystemDataList[row] == worker.diskInfoList[devNameList[row]]
      {
        assert fileSystemDataList[row] == infos[IndexOf(newDevNameList, devNameList[row])];
      }
    }

    /** The table after a change of the mount list. */
    method UpdateFileSystemList(entries: seq<MountEntry>) returns (ended: bool, newDevNameList: seq<string>, edits: seq<Edit<string>>)
      requires Valid()
      modifies this, worker
      ensures ended <==> !AllMeasurable(entries)
      ensures !ended ==> Valid() && Distinct(newDevNameList) && forall dev :: dev in newDevNameList <==> LastOf(entries, dev).Some?
      ensures !ended ==> devNameList == Diff(old(devNameList), newDevNameList) == Replay(old(devNameList), edits)
      ensures !ended ==> forall row :: 0 <= row < |devNameList| ==>
                |fileSystemDataList| == |devNameList| && Known(old(worker.diskInfoList), entries, devNameList[row]) == Some(fileSystemDataList[row])
      ensures !ended ==> forall row :: 0 <= row < |devNameList| ==>
                LastOf(entries, devNameList[row]).Some? && ShowsEntry(fileSystemDataList[row], LastOf(entries, devNameList[row]).value)
      ensures !ended ==> Announced(old(devNameList), newDevNameList, |newDevNameList|, edits)
    {
      newDevNameList, edits := [], [];
      ghost var before := worker.diskInfoList;
      ended := worker.OnFileSystemListChanged(entries);
      if !ended {
        newDevNameList, edits := FollowWorker();
        forall row | 0 <= row < |devNameList|
          ensures LastOf(entries, devNameList[row]).Some? && ShowsEntry(fileSystemDataList[row], LastOf(entries, devNameList[row]).value)
        {
          KnownShowsEntry(before, entries, devNameList[row]);
        }
      }
    }
  }
}
