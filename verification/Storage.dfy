/** core/storage.c: the object table, updated in place over a disk, refining StoreSpec. */
module Storage {
  import opened Options
  import opened Words
  import opened Directory
  import opened StoreSpec

  class ObjectStore {
    var objects: seq<Object>
    var objectCount: nat
    var disk: seq<byte>

    ghost function State(): Store
      reads this
    {
      Store(objects, objectCount, disk)
    }

    ghost predicate Valid()
      reads this
    {
      StoreWF(State())
    }

    /** storage_init on the disk a boot finds. */
    constructor (max: nat, disk: seq<byte>)
      requires 8 + ENTRY_SIZE * max <= SECTOR && SECTOR * ObjectLba(max) <= |disk|
      ensures State() == Init(max, disk)
    {
      this.disk := disk;
      var sector := DiskRead(disk, DIRECTORY_LBA, 1);
      var rows := seq(max, i => EmptyRow());
      var n := 0;
      if HasMagic(sector) {
        n := if sector[4] > max then max else sector[4];
      }
      var id := 0;
      while id < n
        invariant 0 <= id <= n <= max && |rows| == max && n == LoadCount(sector, max)
        invariant forall i :: 0 <= i < max ==> rows[i] == if i < id then LoadRow(sector, max, i) else EmptyRow()
      {
        rows := rows[id := DecodeEntry(EntryBytes(sector, id), rows[id], id)];
        id := id + 1;
      }
      objects := rows;
      objectCount := n;
      assert rows == LoadRows(sector, max);
    }

    // ---- names ----------------------------------------------------------------

    /** name_eq: byte by byte, at most 16. */
    static method CompareNames(stored: seq<byte>, given: CString) returns (b: bool)
      requires |stored| == NAME_SIZE
      ensures b == NameEq(stored, given)
    {
      var i := 0;
      while i < NAME_SIZE
        invariant 0 <= i <= NAME_SIZE && i <= |given|
        invariant NameEq(stored, given) == NameEqFrom(stored, given, i)
      {
        var g := if i < |given| then given[i] else 0;
        if stored[i] != g {
          return false;
        }
        if stored[i] == 0 {
          return true;
        }
        i := i + 1;
      }
      return true;
    }

    method FindByName(name: CString) returns (r: int)
      requires Valid()
      ensures r == Lookup(State(), name)
    {
      var id := 0;
      while id < objectCount
        invariant 0 <= id <= objectCount
        invariant Lookup(State(), name) == FindFrom(State(), name, id)
      {
        assert RowOk(objects[id], id, objectCount);
        if objects[id].inUse {
          var same := CompareNames(objects[id].name, name);
          if same {
            return id;
          }
        }
        id := id + 1;
      }
      return -1;
    }

    /** The copy loop shared by creation and renaming: at most 15 bytes, then a NUL. */
    static method StoreName(raw: seq<byte>, given: CString) returns (r: seq<byte>)
      requires |raw| == NAME_SIZE
      ensures r == CopyName(raw, given)
    {
      var buf := new byte[NAME_SIZE](i requires 0 <= i < NAME_SIZE => raw[i]);
      var i := 0;
      while i < NAME_SIZE - 1 && i < |given|
        invariant 0 <= i <= NAME_SIZE - 1 && i <= |given|
        invariant forall j :: 0 <= j < i ==> buf[j] == given[j]
        invariant forall j :: i <= j < NAME_SIZE ==> buf[j] == raw[j]
      {
        buf[i] := given[i];
        i := i + 1;
      }
      buf[i] := 0;
      r := buf[..];
    }

    // ---- the directory sector ---------------------------------------------------

    /** The first eight bytes of an entry: in use, trust, two unused, size. */
    static method EntryHead(o: Object) returns (e: array<byte>)
      requires ObjectOk(o)
      ensures fresh(e) && e.Length == ENTRY_SIZE && e[..8] == EncodeEntry(o)[..8]
      ensures forall i :: 8 <= i < ENTRY_SIZE ==> e[i] == 0
    {
      e := new byte[ENTRY_SIZE](i => 0);
      SizeBytes(o.size);
      e[0] := if o.inUse then 1 else 0;
      e[1] := o.trust;
      e[4] := o.size % 256;
      e[5] := o.size / 256 % 256;
      e[6] := o.size / 65536 % 256;
      e[7] := o.size / 16777216 % 256;
      EntryHeadBytes(o);
    }

    /** The 32 bytes of one entry: flags, size, and up to 15 name bytes before a NUL. */
    static method EntryImage(o: Object) returns (e: array<byte>)
      requires ObjectOk(o)
      ensures fresh(e) && e[..] == EncodeEntry(o)
    {
      e := EntryHead(o);
      CStrShort(o.name);
      ghost var name := CStr(o.name);
      ghost var head := e[..8];
      assert forall i :: 0 <= i < |name| ==> name[i] == o.name[i] && name[i] != 0;
      var j := 0;
      while j < NAME_SIZE - 1 && o.name[j] != 0
        invariant 0 <= j <= |name|
        invariant e[..8] == head
        invariant forall i :: 0 <= i < j ==> e[8 + i] == name[i]
        invariant forall i :: 8 + j <= i < ENTRY_SIZE ==> e[i] == 0
      {
        e[8 + j] := o.name[j];
        j := j + 1;
      }
      e[8 + j] := 0;
      EntryLayout(e[..], o);
    }

    /** A zeroed sector with the magic and the count in place. */
    static method NewSector(ghost saved: seq<Object>, count: nat) returns (dirBuf: array<byte>)
      requires count == |saved| && 8 + ENTRY_SIZE * |saved| <= SECTOR && forall o :: o in saved ==> ObjectOk(o)
      ensures fresh(dirBuf) && dirBuf[..] == PartlySaved(saved, 0)
    {
      dirBuf := new byte[SECTOR](i => 0);
      dirBuf[0] := DIRECTORY_MAGIC % 256;
      dirBuf[1] := DIRECTORY_MAGIC / 256 % 256;
      dirBuf[2] := DIRECTORY_MAGIC / 65536 % 256;
      dirBuf[3] := DIRECTORY_MAGIC / 16777216 % 256;
      dirBuf[4] := count;
      HeaderOnly(dirBuf[..], saved);
    }

    /** The loop of directory_save: one entry after the other. */
    static method BuildSector(saved: seq<Object>) returns (dirBuf: array<byte>)
      requires 8 + ENTRY_SIZE * |saved| <= SECTOR && forall o :: o in saved ==> ObjectOk(o)
      ensures dirBuf[..] == Encode(saved)
    {
      dirBuf := NewSector(saved, |saved|);
      var id := 0;
      while id < |saved|
        invariant 0 <= id <= |saved| && dirBuf.Length == SECTOR
        invariant dirBuf[..] == PartlySaved(saved, id)
        modifies dirBuf
      {
        var e := EntryImage(saved[id]);
        CopyEntry(dirBuf, 8 + id * ENTRY_SIZE, e);
        OneMoreSaved(saved, id);
        id := id + 1;
      }
      assert saved[..id] == saved;
    }

    static method CopyEntry(dirBuf: array<byte>, off: nat, e: array<byte>)
      requires dirBuf != e && dirBuf.Length == SECTOR && e.Length == ENTRY_SIZE && off + ENTRY_SIZE <= SECTOR
      modifies dirBuf
      ensures dirBuf[..] == old(dirBuf[..off]) + old(e[..]) + old(dirBuf[off + ENTRY_SIZE..])
    {
      forall i | 0 <= i < ENTRY_SIZE {
        dirBuf[off + i] := e[i];
      }
    }

    /** directory_save. */
    method SaveTable()
      requires Valid()
      modifies this`disk
      ensures State() == SaveDirectory(old(State()))
    {
      assert forall i :: 0 <= i < objectCount ==> RowOk(objects[i], i, objectCount);
      var dirBuf := BuildSector(objects[..objectCount]);
      disk := DiskWrite(disk, DIRECTORY_LBA, dirBuf[..]);
    }

    // ---- mutations ----------------------------------------------------------------

    method Put(id: nat, o: Object)
      requires Valid() && id <= objectCount && id < |objects| && ObjectOk(o) && o.lba == ObjectLba(id)
      modifies this
      ensures Valid() && State() == PutRow(old(State()), id, o)
    {
      objects := objects[id := o];
      if id == objectCount {
        objectCount := objectCount + 1;
      }
      SaveTable();
    }

    method Allocate(name: CString) returns (r: int)
      requires Valid()
      modifies this
      ensures Valid() && (State(), r) == AllocObject(old(State()), name)
    {
      var id := 0;
      while id < objectCount && objects[id].inUse
        invariant 0 <= id <= objectCount
        invariant FreeRow(objects, objectCount, 0) == FreeRow(objects, objectCount, id)
      {
        id := id + 1;
      }
      if id == objectCount && objectCount >= |objects| {
        return -1;
      }
      StoredName(objects[id].name, name);
      var raw := StoreName(objects[id].name, name);
      Put(id, Object(true, raw, OBJECT_DATA_BASE_LBA + id * SECTORS_PER_OBJECT, 0, UNTRUSTED));
      return id;
    }

    /** storage_create_object: boot time, idempotent by name. */
    method CreateAtBoot(name: CString) returns (r: int)
      requires Valid()
      modifies this
      ensures Valid() && (State(), r) == CreateObject(old(State()), name)
    {
      var existing := FindByName(name);
      if existing >= 0 {
        return existing;
      }
      r := Allocate(name);
    }

    /** storage_create_named: run time, strict. */
    method CreateStrict(name: CString) returns (r: int)
      requires Valid()
      modifies this
      ensures Valid() && (State(), r) == CreateNamed(old(State()), name)
    {
      var existing := FindByName(name);
      if existing >= 0 {
        return -1;
      }
      r := Allocate(name);
    }

    method RenameObject(id: int, name: CString) returns (r: int)
      requires Valid()
      modifies this
      ensures Valid() && (State(), r) == Rename(old(State()), id, name)
    {
      if id < 0 || id >= objectCount || !objects[id].inUse {
        return -1;
      }
      var existing := FindByName(name);
      if existing >= 0 && existing != id {
        return -1;
      }
      StoredName(objects[id].name, name);
      var raw := StoreName(objects[id].name, name);
      Put(id, objects[id].(name := raw));
      return 0;
    }

    method DeleteObject(id: int) returns (r: int)
      requires Valid()
      modifies this
      ensures Valid() && (State(), r) == Delete(old(State()), id)
    {
      if id < 0 || id >= objectCount || !objects[id].inUse {
        return -1;
      }
      var o := objects[id];
      Put(id, o.(inUse := false, name := o.name[0 := 0], size := 0, trust := UNTRUSTED));
      return 0;
    }

    /** The bytes copied to the caller's buffer, or None for -1. */
    method ReadObject(id: int, len: nat) returns (r: Option<seq<byte>>)
      requires Valid()
      ensures r == Read(State(), id, len)
    {
      if id < 0 || id >= |objects| || !objects[id].inUse {
        return None;
      }
      if objects[id].trust == REJECTED {
        return None;
      }
      var scratch := DiskRead(disk, objects[id].lba, SECTORS_PER_OBJECT);
      var n := objects[id].size;
      if n > len {
        n := len;
      }
      var buf := new byte[n];
      var i := 0;
      while i < n
        invariant 0 <= i <= n
        invariant buf[..i] == scratch[..i]
      {
        buf[i] := scratch[i];
        i := i + 1;
      }
      assert buf[..] == buf[..i];
      return Some(buf[..]);
    }

    method WriteObject(id: int, buf: seq<byte>) returns (r: int)
      requires Valid()
      modifies this
      ensures Valid() && (State(), r) == Write(old(State()), id, buf)
    {
      if id < 0 || id >= |objects| || !objects[id].inUse {
        return -1;
      }
      if |buf| > OBJECT_MAX_BYTES {
        return -1;
      }
      var scratch := new byte[OBJECT_MAX_BYTES];
      var i := 0;
      while i < OBJECT_MAX_BYTES
        invariant 0 <= i <= OBJECT_MAX_BYTES
        invariant forall j :: 0 <= j < i ==> scratch[j] == if j < |buf| then buf[j] else 0
        modifies scratch
      {
        scratch[i] := if i < |buf| then buf[i] else 0;
        i := i + 1;
      }
      assert scratch[..] == PadData(buf);
      disk := DiskWrite(disk, objects[id].lba, scratch[..]);
      Put(id, objects[id].(size := |buf|, trust := UNTRUSTED));
      return |buf|;
    }

    method PromoteObject(id: int) returns (r: int)
      requires Valid()
      modifies this
      ensures Valid() && (State(), r) == Promote(old(State()), id)
    {
      if id < 0 || id >= |objects| || !objects[id].inUse {
        return -1;
      }
      if objects[id].trust == TRUSTED || objects[id].trust == REJECTED {
        return -1;
      }
      Put(id, objects[id].(trust := objects[id].trust + 1));
      return objects[id].trust;
    }

    method RejectObject(id: int) returns (r: int)
      requires Valid()
      modifies this
      ensures Valid() && (State(), r) == Reject(old(State()), id)
    {
      if id < 0 || id >= |objects| || !objects[id].inUse {
        return -1;
      }
      Put(id, objects[id].(trust := REJECTED));
      return 0;
    }

    /** storage_get_by_index: the nth live object's id, name, trust and size, or nothing past the end. */
    method GetByIndex(nth: int) returns (r: Option<Listing>)
      requires Valid()
      ensures r == StoreSpec.GetByIndex(State(), nth)
    {
      var seen := 0;
      var id := 0;
      while id < objectCount
        invariant 0 <= id <= objectCount && 0 <= seen
        invariant NthLive(State(), nth) == NthFrom(State(), nth - seen, id)
      {
        if objects[id].inUse {
          if seen == nth {
            var name := CopyOutName(objects[id].name);
            return Some(Listing(id, name, objects[id].trust, objects[id].size));
          }
          seen := seen + 1;
        }
        id := id + 1;
      }
      return None;
    }

    /** Up to 15 bytes, ended by the first NUL. */
    static method CopyOutName(raw: seq<byte>) returns (name: CString)
      requires |raw| == NAME_SIZE && raw[NAME_SIZE - 1] == 0
      ensures name == CStr(raw)
    {
      var j := 0;
      var buf: seq<byte> := [];
      while j < NAME_SIZE - 1 && raw[j] != 0
        invariant 0 <= j <= NAME_SIZE - 1 && buf == raw[..j]
        invariant forall i :: 0 <= i < j ==> raw[i] != 0
      {
        buf := buf + [raw[j]];
        j := j + 1;
      }
      CStrUnique(raw, j);
      name := buf;
    }
  }

  // ---- lemmas behind the byte-level save ---------------------------------------------

  lemma SizeBytes(v: nat)
    ensures LittleEndian(v, 4) == [v % 256, v / 256 % 256, v / 65536 % 256, v / 16777216 % 256]
  {
    var v1 := v / 256;
    var v2 := v1 / 256;
    assert LittleEndian(v, 4) == [v % 256] + LittleEndian(v1, 3);
    assert LittleEndian(v1, 3) == [v1 % 256] + LittleEndian(v2, 2);
    assert LittleEndian(v2, 2) == [v2 % 256] + LittleEndian(v2 / 256, 1);
    assert LittleEndian(v2 / 256, 1) == [v2 / 256 % 256] + LittleEndian(v2 / 256 / 256, 0);
    assert v2 == v / 65536 && v2 / 256 == v / 16777216;
  }

  lemma EntryHeadBytes(o: Object)
    requires ObjectOk(o)
    ensures EncodeEntry(o)[..8] == [if o.inUse then 1 else 0, o.trust, 0, 0] + LittleEndian(o.size, 4)
  {
    EntryParts(o);
    var e := EncodeEntry(o);
    assert e[..8] == e[..4] + e[4..8];
  }

  lemma EntryLayout(e: seq<byte>, o: Object)
    requires |e| == ENTRY_SIZE && ObjectOk(o) && |CStr(o.name)| < NAME_SIZE
    requires e[..8] == EncodeEntry(o)[..8]
    requires forall i :: 0 <= i < |CStr(o.name)| ==> e[8 + i] == CStr(o.name)[i]
    requires forall i :: 8 + |CStr(o.name)| <= i < ENTRY_SIZE ==> e[i] == 0
    ensures e == EncodeEntry(o)
  {
    assert e[8..] == EncodeEntry(o)[8..];
    assert e == e[..8] + e[8..];
  }

  /** The sector after the first n entries have been written. */
  ghost function PartlySaved(saved: seq<Object>, n: nat): (r: seq<byte>)
    requires n <= |saved| && 8 + ENTRY_SIZE * |saved| <= SECTOR && forall o :: o in saved ==> ObjectOk(o)
    ensures |r| == SECTOR
  {
    LittleEndian(DIRECTORY_MAGIC, 4) + [|saved|, 0, 0, 0] + EncodeEntries(saved[..n])
    + Zeros(SECTOR - 8 - ENTRY_SIZE * n)
  }

  lemma HeaderOnly(sector: seq<byte>, saved: seq<Object>)
    requires |sector| == SECTOR && 8 + ENTRY_SIZE * |saved| <= SECTOR && forall o :: o in saved ==> ObjectOk(o)
    requires sector[..4] == [DIRECTORY_MAGIC % 256, DIRECTORY_MAGIC / 256 % 256,
                             DIRECTORY_MAGIC / 65536 % 256, DIRECTORY_MAGIC / 16777216 % 256]
    requires sector[4] == |saved| && forall i :: 5 <= i < SECTOR ==> sector[i] == 0
    ensures sector == PartlySaved(saved, 0)
  {
    SizeBytes(DIRECTORY_MAGIC);
    assert sector == sector[..4] + sector[4..];
  }

  lemma OneMoreSaved(saved: seq<Object>, n: nat)
    requires n < |saved| && 8 + ENTRY_SIZE * |saved| <= SECTOR && forall o :: o in saved ==> ObjectOk(o)
    ensures var off := 8 + n * ENTRY_SIZE;
            PartlySaved(saved, n + 1)
            == PartlySaved(saved, n)[..off] + EncodeEntry(saved[n]) + PartlySaved(saved, n)[off + ENTRY_SIZE..]
  {
    assert saved[..n + 1] == saved[..n] + [saved[n]];
    EncodeEntriesAppend(saved[..n], saved[n]);
  }

  lemma {:induction false} EncodeEntriesAppend(a: seq<Object>, o: Object)
    requires ObjectOk(o) && forall x :: x in a ==> ObjectOk(x)
    ensures EncodeEntries(a + [o]) == EncodeEntries(a) + EncodeEntry(o)
  {
    if a == [] {
      assert a + [o] == [o];
      assert EncodeEntries([o]) == EncodeEntry(o) + EncodeEntries([o][1..]);
    } else {
      EncodeEntriesAppend(a[1..], o);
      FirstOfMore(a, o);
      assert EncodeEntries(a) == EncodeEntry(a[0]) + EncodeEntries(a[1..]);
      Regroup(EncodeEntry(a[0]), EncodeEntries(a[1..]), EncodeEntry(o));
    }
  }

  lemma Regroup(a: seq<byte>, b: seq<byte>, c: seq<byte>)
    ensures a + (b + c) == (a + b) + c
  {
  }

  lemma FirstOfMore(a: seq<Object>, o: Object)
    requires a != [] && ObjectOk(o) && forall x :: x in a ==> ObjectOk(x)
    ensures EncodeEntries(a + [o]) == EncodeEntry(a[0]) + EncodeEntries(a[1..] + [o])
  {
    assert (a + [o])[0] == a[0] && (a + [o])[1..] == a[1..] + [o];
  }
}
