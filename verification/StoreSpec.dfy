/**
  The object store of core/storage.c as a value: the object table, the count of
  rows ever used, and the disk behind it. Disk transfers are taken to succeed.
 */
module StoreSpec {
  import opened Options
  import opened Words
  import opened Directory

  datatype Store = Store(objects: seq<Object>, count: nat, disk: seq<byte>)

  const FAILED: int := -1

  // ---- the disk ---------------------------------------------------------------

  function DiskRead(disk: seq<byte>, lba: nat, sectors: nat): (r: seq<byte>)
    requires SECTOR * (lba + sectors) <= |disk|
    ensures |r| == SECTOR * sectors
  {
    disk[SECTOR * lba..SECTOR * (lba + sectors)]
  }

  function DiskWrite(disk: seq<byte>, lba: nat, data: seq<byte>): (r: seq<byte>)
    requires SECTOR * lba + |data| <= |disk|
    ensures |r| == |disk|
  {
    disk[..SECTOR * lba] + data + disk[SECTOR * lba + |data|..]
  }

  // ---- well-formedness ----------------------------------------------------------

  /** Row `id` of a table of which `count` rows have ever been used. */
  predicate RowOk(o: Object, id: nat, count: nat) {
    && |o.name| == NAME_SIZE && o.name[NAME_SIZE - 1] == 0
    && (id < count ==> ObjectOk(o) && o.lba == ObjectLba(id))
    && (id >= count ==> !o.inUse)
  }

  /** The shape every operation relies on: a table that fits one directory sector, and a disk behind it. */
  predicate StoreWF(s: Store) {
    && 8 + ENTRY_SIZE * |s.objects| <= SECTOR
    && s.count <= |s.objects|
    && SECTOR * ObjectLba(|s.objects|) <= |s.disk|
    && (forall id :: 0 <= id < |s.objects| ==> RowOk(s.objects[id], id, s.count))
  }

  predicate Live(s: Store, id: int) {
    0 <= id < |s.objects| && s.objects[id].inUse
  }

  // ---- names ----------------------------------------------------------------------

  /** name_eq from byte i on; reading `given` at its end yields its NUL. */
  function NameEqFrom(stored: seq<byte>, given: CString, i: nat): (b: bool)
    requires |stored| == NAME_SIZE && i <= NAME_SIZE && i <= |given|
    decreases NAME_SIZE - i
  {
    if i == NAME_SIZE then true
    else if i == |given| then stored[i] == 0
    else stored[i] == given[i] && NameEqFrom(stored, given, i + 1)
  }

  predicate NameEq(stored: seq<byte>, given: CString)
    requires |stored| == NAME_SIZE
  {
    NameEqFrom(stored, given, 0)
  }

  predicate Matches(s: Store, id: nat, name: CString)
    requires StoreWF(s) && id < s.count
  {
    s.objects[id].inUse && NameEq(s.objects[id].name, name)
  }

  function FindFrom(s: Store, name: CString, id: nat): (r: int)
    requires StoreWF(s) && id <= s.count
    ensures r == -1 || id <= r < s.count
    ensures r >= 0 ==> Matches(s, r, name)
    ensures r == -1 ==> forall x :: id <= x < s.count ==> !Matches(s, x, name)
    decreases s.count - id
  {
    if id == s.count then -1
    else if Matches(s, id, name) then id
    else FindFrom(s, name, id + 1)
  }

  function Lookup(s: Store, name: CString): (r: int)
    requires StoreWF(s)
  {
    FindFrom(s, name, 0)
  }

  // ---- mutations --------------------------------------------------------------------

  function SaveDirectory(s: Store): (r: Store)
    requires StoreWF(s)
  {
    s.(disk := DiskWrite(s.disk, DIRECTORY_LBA, Encode(s.objects[..s.count])))
  }

  /** Sets row `id`, an old one or the next new one, and saves the directory. */
  function PutRow(s: Store, id: nat, o: Object): (r: Store)
    requires StoreWF(s) && id <= s.count && id < |s.objects|
    requires ObjectOk(o) && o.lba == ObjectLba(id)
    ensures StoreWF(r)
  {
    SaveDirectory(s.(objects := s.objects[id := o], count := if id == s.count then s.count + 1 else s.count))
  }

  function FreeRow(objects: seq<Object>, n: nat, i: nat): (r: nat)
    requires i <= n <= |objects|
    ensures i <= r <= n
    ensures r < n ==> !objects[r].inUse
    ensures forall x :: i <= x < r ==> objects[x].inUse
    decreases n - i
  {
    if i == n then n
    else if !objects[i].inUse then i
    else FreeRow(objects, n, i + 1)
  }

  function AllocObject(s: Store, name: CString): (r: (Store, int))
    requires StoreWF(s)
    ensures StoreWF(r.0)
  {
    var id := FreeRow(s.objects, s.count, 0);
    if id == |s.objects| then (s, FAILED)
    else
      StoredName(s.objects[id].name, name);
      (PutRow(s, id, Object(true, CopyName(s.objects[id].name, name), ObjectLba(id), 0, UNTRUSTED)), id)
  }

  function CreateObject(s: Store, name: CString): (r: (Store, int))
    requires StoreWF(s)
    ensures StoreWF(r.0)
  {
    if Lookup(s, name) >= 0 then (s, Lookup(s, name)) else AllocObject(s, name)
  }

  function CreateNamed(s: Store, name: CString): (r: (Store, int))
    requires StoreWF(s)
    ensures StoreWF(r.0)
  {
    if Lookup(s, name) >= 0 then (s, FAILED) else AllocObject(s, name)
  }

  function Rename(s: Store, id: int, name: CString): (r: (Store, int))
    requires StoreWF(s)
    ensures StoreWF(r.0)
  {
    if id < 0 || id >= s.count || !s.objects[id].inUse then (s, FAILED)
    else if Lookup(s, name) >= 0 && Lookup(s, name) != id then (s, FAILED)
    else
      StoredName(s.objects[id].name, name);
      var o := s.objects[id].(name := CopyName(s.objects[id].name, name));
      (PutRow(s, id, o), 0)
  }

  function Delete(s: Store, id: int): (r: (Store, int))
    requires StoreWF(s)
    ensures StoreWF(r.0)
  {
    if id < 0 || id >= s.count || !s.objects[id].inUse then (s, FAILED)
    else
      var o := s.objects[id];
      var o' := o.(inUse := false, name := o.name[0 := 0], size := 0, trust := UNTRUSTED);
      assert o'.name[0] == 0;
      (PutRow(s, id, o'), 0)
  }

  /** None is -1: no such object, or its trust says rejected. */
  function Read(s: Store, id: int, len: nat): (r: Option<seq<byte>>)
    requires StoreWF(s)
  {
    if !Live(s, id) || s.objects[id].trust == REJECTED then None
    else
      var data := DiskRead(s.disk, s.objects[id].lba, SECTORS_PER_OBJECT);
      Some(data[..if s.objects[id].size > len then len else s.objects[id].size])
  }

  function PadData(buf: seq<byte>): (r: seq<byte>)
    requires |buf| <= OBJECT_MAX_BYTES
    ensures |r| == OBJECT_MAX_BYTES
  {
    buf + Zeros(OBJECT_MAX_BYTES - |buf|)
  }

  function Write(s: Store, id: int, buf: seq<byte>): (r: (Store, int))
    requires StoreWF(s)
    ensures StoreWF(r.0)
  {
    if !Live(s, id) || |buf| > OBJECT_MAX_BYTES then (s, FAILED)
    else
      var o := s.objects[id].(size := |buf|, trust := UNTRUSTED);
      (PutRow(s.(disk := DiskWrite(s.disk, s.objects[id].lba, PadData(buf))), id, o), |buf|)
  }

  function Promote(s: Store, id: int): (r: (Store, int))
    requires StoreWF(s)
    ensures StoreWF(r.0)
  {
    if !Live(s, id) || s.objects[id].trust == TRUSTED || s.objects[id].trust == REJECTED then (s, FAILED)
    else
      var o := s.objects[id].(trust := s.objects[id].trust + 1);
      (PutRow(s, id, o), o.trust)
  }

  function Reject(s: Store, id: int): (r: (Store, int))
    requires StoreWF(s)
    ensures StoreWF(r.0)
  {
    if !Live(s, id) then (s, FAILED)
    else
      var o := s.objects[id].(trust := REJECTED);
      (PutRow(s, id, o), 0)
  }

  // ---- storage_init -------------------------------------------------------------------

  /** The zeroed table storage_init starts from. */
  function EmptyRow(): Object {
    Object(false, Zeros(NAME_SIZE), 0, 0, UNTRUSTED)
  }

  function LoadRow(sector: seq<byte>, max: nat, id: nat): (o: Object)
    requires |sector| == SECTOR && 8 + ENTRY_SIZE * max <= SECTOR && id < max
  {
    if id < LoadCount(sector, max) then DecodeEntry(EntryBytes(sector, id), EmptyRow(), id) else EmptyRow()
  }

  function LoadRows(sector: seq<byte>, max: nat): (r: seq<Object>)
    requires |sector| == SECTOR && 8 + ENTRY_SIZE * max <= SECTOR
    ensures |r| == max
  {
    seq(max, id requires 0 <= id < max => LoadRow(sector, max, id))
  }

  function Init(max: nat, disk: seq<byte>): (s: Store)
    requires 8 + ENTRY_SIZE * max <= SECTOR && SECTOR * ObjectLba(max) <= |disk|
  {
    Store(LoadRows(DiskRead(disk, DIRECTORY_LBA, 1), max), LoadCount(DiskRead(disk, DIRECTORY_LBA, 1), max), disk)
  }

  function Reboot(s: Store): (r: Store)
    requires StoreWF(s)
  {
    Init(|s.objects|, s.disk)
  }

  // ---- storage_get_by_index -------------------------------------------------------------

  /** The nth live id at or after `id`, or -1. */
  function NthFrom(s: Store, nth: int, id: nat): (r: int)
    requires StoreWF(s) && id <= s.count
    decreases s.count - id
  {
    if id == s.count then -1
    else if !s.objects[id].inUse then NthFrom(s, nth, id + 1)
    else if nth == 0 then id
    else NthFrom(s, nth - 1, id + 1)
  }

  function NthLive(s: Store, nth: int): (r: int)
    requires StoreWF(s)
  {
    NthFrom(s, nth, 0)
  }

  /** What storage_get_by_index fills in: id, name, trust and size. */
  datatype Listing = Listing(id: nat, name: CString, trust: nat, size: nat)

  /** None is its 0: position nth is past the end. */
  function GetByIndex(s: Store, nth: int): (r: Option<Listing>)
    requires StoreWF(s)
  {
    var id := NthLive(s, nth);
    if id < 0 then None
    else
      NthFromInRange(s, nth, 0);
      Some(Listing(id, CStr(s.objects[id].name), s.objects[id].trust, s.objects[id].size))
  }

  lemma {:induction false} NthFromInRange(s: Store, nth: int, id: nat)
    requires StoreWF(s) && id <= s.count
    ensures -1 <= NthFrom(s, nth, id) < s.count
    decreases s.count - id
  {
    if id < s.count {
      NthFromInRange(s, nth, id + 1);
      NthFromInRange(s, nth - 1, id + 1);
    }
  }
}
