/** A machine with the source's own sizes that meets what the theorems assume of the state after initialisation. */
module Machine {
  import opened Words
  import opened ActorTable
  import opened Kernel
  import Directory
  import Isolation
  import PageFrames
  import Paging
  import Quarantine
  import StoreRefinement
  import StoreSpec

  const MAX_ACTORS: nat := 17
  const MAILBOX_CAPACITY: nat := 8
  const MAX_CAPS_PER_ACTOR: nat := 20
  const MAX_OBJECTS: nat := 8
  const PROGRAM_POOL_SIZE: nat := 2
  const PAGES: nat := 3840 // 1MB to 16MB
  const FREE_LIST_CAPACITY: nat := 32

  function EmptyTable(): Paging.Table {
    seq(Paging.ENTRIES, i => Paging.Absent)
  }

  function Tables(n: nat): (r: seq<Paging.Table>)
    ensures |r| == n && forall i :: 0 <= i < n ==> r[i] == EmptyTable()
  {
    seq(n, i => EmptyTable())
  }

  function SomeSpaces(): Paging.Spaces {
    Paging.Spaces(Paging.Layout(0x20000, 0x28000, 40, 57, 74, 91, 108, 110, 111), EmptyTable(),
                  Tables(MAX_ACTORS), Tables(MAX_ACTORS), Tables(MAX_ACTORS), Tables(MAX_ACTORS),
                  Tables(PROGRAM_POOL_SIZE), seq(PROGRAM_POOL_SIZE, i => 0), false)
  }

  function SomeMemory(): PageFrames.Mem {
    PageFrames.Mem(seq(PAGES, i => false), 0, PageFrames.Addr(PAGES), [], FREE_LIST_CAPACITY)
  }

  function BlankDisk(): (d: seq<byte>) {
    Directory.Zeros(Directory.SECTOR * Directory.ObjectLba(MAX_OBJECTS))
  }

  function EmptyRow(): (a: Actor)
    ensures ActorOk(a) && |a.caps| == MAX_CAPS_PER_ACTOR
  {
    Actor(Dead, 0, 0, 0, seq(MAILBOX_CAPACITY, i => Message(0, 0, 0)), 0, 0,
          seq(MAX_CAPS_PER_ACTOR, i => NO_CAP), 0, MAX_SPAWNS_PER_ACTOR, CONSOLE_WIN_LOG, false)
  }

  function Booting(): Kernel {
    Kernel(seq(MAX_ACTORS, i => EmptyRow()), -1, false, SomeMemory(), SomeSpaces(), StoreSpec.Init(MAX_OBJECTS, BlankDisk()))
  }

  lemma {:induction false} ZeroBytes(p: seq<byte>)
    requires forall i :: 0 <= i < |p| ==> p[i] == 0
    ensures FromLittleEndian(p) == 0
  {
    if p != [] {
      ZeroBytes(p[1..]);
    }
  }

  lemma BlankDiskHasNoMagic()
    ensures !Directory.HasMagic(StoreSpec.DiskRead(BlankDisk(), Directory.DIRECTORY_LBA, 1))
  {
    var sector := StoreSpec.DiskRead(BlankDisk(), Directory.DIRECTORY_LBA, 1);
    ZeroBytes(sector[..4]);
  }

  /** The hypotheses of the theorems about whole runs can be met. */
  lemma MachineExists()
    ensures Initial(Booting()) && Isolation.MachineOk(Booting()) && StoreRefinement.StoreInv(Booting().store)
    ensures |Booting().actors| == MAX_ACTORS
  {
    BlankDiskHasNoMagic();
    StoreRefinement.FirstBoot(MAX_OBJECTS, BlankDisk());
    var k := Booting();
    assert forall i :: 0 <= i < |k.actors| ==> FreshSlot(k.actors[i]);
  }

  // ---- the pipeline's slots -----------------------------------------------------------------

  const DOWNLOADER_SLOT: nat := 8
  const SCANNER_SLOT: nat := 9
  const READER_SLOT: nat := 10
  const NETWORK_PEER_SLOT: nat := 11

  function SomeCast(payload: seq<byte>, suspicious: seq<byte>): Quarantine.Cast {
    Quarantine.Cast(DOWNLOADER_SLOT, SCANNER_SLOT, READER_SLOT, 0, payload, suspicious)
  }
}
