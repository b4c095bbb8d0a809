/**
  The object store behaves like a map from ids to (name, bytes, trust): for
  every sequence of calls, reboots included, it gives the replies that the map
  gives, and the directory sector always decodes to the table in memory.
 */
module StoreRefinement {
  import opened Options
  import opened Words
  import opened Directory
  import opened StoreSpec
  import Runs

  datatype Entity = Entity(name: seq<byte>, bytes: seq<byte>, trust: nat)

  type View = map<nat, Entity>

  function DataOf(s: Store, id: nat): (r: seq<byte>)
    requires StoreWF(s) && id < |s.objects|
    ensures |r| == OBJECT_MAX_BYTES
  {
    DiskRead(s.disk, ObjectLba(id), SECTORS_PER_OBJECT)
  }

  /** What is stored in each object's own sectors. */
  function Datas(s: Store): (r: seq<seq<byte>>)
    requires StoreWF(s)
    ensures |r| == |s.objects| && forall id :: 0 <= id < |r| ==> |r[id]| == OBJECT_MAX_BYTES
  {
    seq(|s.objects|, id requires 0 <= id < |s.objects| => DataOf(s, id))
  }

  function EntityOf(o: Object, data: seq<byte>): Entity
    requires o.size <= |data|
  {
    Entity(CStr(o.name), data[..o.size], o.trust)
  }

  predicate TableOk(objects: seq<Object>, datas: seq<seq<byte>>) {
    && |datas| == |objects|
    && (forall id :: 0 <= id < |datas| ==> |datas[id]| == OBJECT_MAX_BYTES)
    && (forall id :: 0 <= id < |objects| && objects[id].inUse ==> objects[id].size <= OBJECT_MAX_BYTES)
  }

  function TableView(objects: seq<Object>, datas: seq<seq<byte>>): View
    requires TableOk(objects, datas)
  {
    map id | 0 <= id < |objects| && objects[id].inUse :: EntityOf(objects[id], datas[id])
  }

  function ViewOf(s: Store): View
    requires StoreWF(s)
  {
    TableView(s.objects, Datas(s))
  }

  function DirSector(s: Store): (r: seq<byte>)
    requires StoreWF(s)
    ensures |r| == SECTOR
  {
    DiskRead(s.disk, DIRECTORY_LBA, 1)
  }

  /** The directory on disk says what the table in memory says. */
  predicate Synced(s: Store)
    requires StoreWF(s)
  {
    || (s.count == 0 && !HasMagic(DirSector(s)))
    || DirSector(s) == Encode(s.objects[..s.count])
  }

  predicate StoreInv(s: Store) {
    StoreWF(s) && Synced(s)
  }

  // ---- disk regions do not interfere ------------------------------------------

  lemma WriteThenRead(disk: seq<byte>, lba: nat, data: seq<byte>, sectors: nat)
    requires SECTOR * lba + |data| <= |disk| && |data| == SECTOR * sectors
    ensures DiskRead(DiskWrite(disk, lba, data), lba, sectors) == data
  {
  }

  lemma WriteElsewhere(disk: seq<byte>, lba: nat, data: seq<byte>, lba': nat, sectors: nat)
    requires SECTOR * lba + |data| <= |disk| && SECTOR * (lba' + sectors) <= |disk|
    requires SECTOR * lba + |data| <= SECTOR * lba' || lba' + sectors <= lba
    ensures DiskRead(DiskWrite(disk, lba, data), lba', sectors) == DiskRead(disk, lba', sectors)
  {
    var disk' := DiskWrite(disk, lba, data);
    assert forall i :: SECTOR * lba' <= i < SECTOR * (lba' + sectors) ==> disk'[i] == disk[i];
  }

  /** Saving the directory leaves every object's bytes alone and syncs the sector. */
  lemma SaveKeepsData(s: Store)
    requires StoreWF(s)
    ensures StoreWF(SaveDirectory(s)) && Synced(SaveDirectory(s))
    ensures Datas(SaveDirectory(s)) == Datas(s)
  {
    var dir := Encode(s.objects[..s.count]);
    WriteThenRead(s.disk, DIRECTORY_LBA, dir, 1);
    forall id | 0 <= id < |s.objects|
      ensures DataOf(SaveDirectory(s), id) == DataOf(s, id)
    {
      WriteElsewhere(s.disk, DIRECTORY_LBA, dir, ObjectLba(id), SECTORS_PER_OBJECT);
    }
  }

  /** The map's side of replacing one row. */
  function SetEntity(v: View, id: nat, o: Object, data: seq<byte>): View
    requires o.size <= |data|
  {
    if o.inUse then v[id := EntityOf(o, data)] else v - {id}
  }

  lemma TableViewPut(objects: seq<Object>, datas: seq<seq<byte>>, id: nat, o: Object)
    requires TableOk(objects, datas) && id < |objects| && o.size <= OBJECT_MAX_BYTES
    ensures TableView(objects[id := o], datas) == SetEntity(TableView(objects, datas), id, o, datas[id])
  {
  }

  lemma PutRowView(s: Store, id: nat, o: Object)
    requires StoreWF(s) && id <= s.count && id < |s.objects| && ObjectOk(o) && o.lba == ObjectLba(id)
    ensures StoreInv(PutRow(s, id, o))
    ensures ViewOf(PutRow(s, id, o)) == SetEntity(ViewOf(s), id, o, Datas(s)[id])
  {
    var s1 := s.(objects := s.objects[id := o], count := if id == s.count then s.count + 1 else s.count);
    SaveKeepsData(s1);
    assert Datas(s1) == Datas(s);
    TableViewPut(s.objects, Datas(s), id, o);
  }

  // ---- the abstract map's operations --------------------------------------------

  ghost predicate Named(v: View, id: int, name: seq<byte>) {
    id in v && v[id].name == name
  }

  /** The lowest id with that name, or -1. */
  ghost function MapLookup(v: View, name: seq<byte>): int {
    if exists id :: Named(v, id, name) then
      LowestExists(v, name);
      var id :| Named(v, id, name) && forall x :: Named(v, x, name) ==> id <= x;
      id
    else -1
  }

  lemma LowestExists(v: View, name: seq<byte>)
    requires exists id :: Named(v, id, name)
    ensures exists id :: Named(v, id, name) && forall x :: Named(v, x, name) ==> id <= x
  {
    var candidates := set id | id in v && Named(v, id, name);
    var id :| Named(v, id, name);
    assert id in candidates;
    var least := Least(candidates, id);
    assert Named(v, least, name);
    assert forall x :: Named(v, x, name) ==> x in candidates;
  }

  lemma {:induction false} Least(xs: set<int>, y: int) returns (m: int)
    requires y in xs
    ensures m in xs && forall x :: x in xs ==> m <= x
    decreases xs
  {
    m := y;
    if z :| z in xs && z < y {
      m := Least(xs - {y}, z);
      assert forall x :: x in xs ==> x == y || x in xs - {y};
    }
  }

  /** The id a creation uses: the lowest one not in the map, or -1 when all `max` are taken. */
  ghost predicate NextId(v: View, max: nat, id: int) {
    if id == -1 then forall x :: 0 <= x < max ==> x in v
    else 0 <= id < max && id !in v && forall x :: 0 <= x < id ==> x in v
  }

  datatype Command =
    | DoCreateObject(name: CString)
    | DoCreateNamed(name: CString)
    | DoLookup(name: CString)
    | DoRename(id: int, name: CString)
    | DoDelete(id: int)
    | DoRead(id: int, len: nat)
    | DoWrite(id: int, buf: seq<byte>)
    | DoPromote(id: int)
    | DoReject(id: int)
    | DoReboot

  datatype Reply = Code(code: int) | Bytes(bytes: Option<seq<byte>>)

  /** What the store does with a command. */
  function Exec(s: Store, c: Command): (Store, Reply)
    requires StoreWF(s)
  {
    match c
    case DoCreateObject(name) => var (s', r) := CreateObject(s, name); (s', Code(r))
    case DoCreateNamed(name) => var (s', r) := CreateNamed(s, name); (s', Code(r))
    case DoLookup(name) => (s, Code(Lookup(s, name)))
    case DoRename(id, name) => var (s', r) := Rename(s, id, name); (s', Code(r))
    case DoDelete(id) => var (s', r) := Delete(s, id); (s', Code(r))
    case DoRead(id, len) => (s, Bytes(Read(s, id, len)))
    case DoWrite(id, buf) => var (s', r) := Write(s, id, buf); (s', Code(r))
    case DoPromote(id) => var (s', r) := Promote(s, id); (s', Code(r))
    case DoReject(id) => var (s', r) := Reject(s, id); (s', Code(r))
    case DoReboot => (Reboot(s), Code(0))
  }

  ghost predicate MapCreate(v: View, max: nat, name: CString, v': View, r: Reply) {
    && r.Code?
    && NextId(v, max, r.code)
    && v' == if r.code == -1 then v else v[r.code := Entity(Truncate(name), [], UNTRUSTED)]
  }

  /** What the map does with it; no table rows, no disk, no directory. */
  ghost predicate MapExec(v: View, max: nat, c: Command, v': View, r: Reply) {
    match c
    case DoCreateObject(name) =>
      if MapLookup(v, name) != -1 then v' == v && r == Code(MapLookup(v, name)) else MapCreate(v, max, name, v', r)
    case DoCreateNamed(name) =>
      if MapLookup(v, name) != -1 then v' == v && r == Code(-1) else MapCreate(v, max, name, v', r)
    case DoLookup(name) => v' == v && r == Code(MapLookup(v, name))
    case DoRename(id, name) =>
      if id !in v || (MapLookup(v, name) != -1 && MapLookup(v, name) != id) then v' == v && r == Code(-1)
      else v' == v[id := v[id].(name := Truncate(name))] && r == Code(0)
    case DoDelete(id) =>
      if id !in v then v' == v && r == Code(-1) else v' == v - {id} && r == Code(0)
    case DoRead(id, len) =>
      && v' == v
      && r == Bytes(if id !in v || v[id].trust == REJECTED then None
                    else Some(if |v[id].bytes| > len then v[id].bytes[..len] else v[id].bytes))
    case DoWrite(id, buf) =>
      if id !in v || |buf| > OBJECT_MAX_BYTES then v' == v && r == Code(-1)
      else v' == v[id := v[id].(bytes := buf, trust := UNTRUSTED)] && r == Code(|buf|)
    case DoPromote(id) =>
      if id !in v || v[id].trust >= TRUSTED then v' == v && r == Code(-1)
      else v' == v[id := v[id].(trust := v[id].trust + 1)] && r == Code(v[id].trust + 1)
    case DoReject(id) =>
      if id !in v then v' == v && r == Code(-1)
      else v' == v[id := v[id].(trust := REJECTED)] && r == Code(0)
    case DoReboot => v' == v && r == Code(0)
  }

  // ---- names ----------------------------------------------------------------------

  lemma {:induction false} NameEqFromMeaning(stored: seq<byte>, given: CString, i: nat)
    requires |stored| == NAME_SIZE && stored[NAME_SIZE - 1] == 0 && i <= NAME_SIZE && i <= |given|
    requires stored[..i] == given[..i]
    ensures NameEqFrom(stored, given, i) <==> CStr(stored) == given
    decreases NAME_SIZE - i
  {
    var s := CStr(stored);
    CStrShort(stored);
    assert forall j :: 0 <= j < |s| ==> s[j] == stored[j] && s[j] != 0;
    if i == NAME_SIZE {
      assert false;
    } else if i == |given| {
      if stored[i] == 0 {
        CStrUnique(stored, i);
      } else {
        assert CStr(stored) != given;
      }
    } else if stored[i] == given[i] {
      assert stored[..i + 1] == stored[..i] + [stored[i]];
      assert given[..i + 1] == given[..i] + [given[i]];
      NameEqFromMeaning(stored, given, i + 1);
    } else if s == given {
      assert false;
    }
  }

  lemma MatchesIsNamed(s: Store, id: nat, name: CString)
    requires StoreWF(s) && id < s.count
    ensures Matches(s, id, name) <==> Named(ViewOf(s), id, name)
  {
    NameEqFromMeaning(s.objects[id].name, name, 0);
  }

  /** What the map's lookup returns, said without choosing. */
  lemma LookupIs(v: View, name: seq<byte>, r: int)
    requires (r == -1 && forall id :: !Named(v, id, name)) || (Named(v, r, name) && forall x :: Named(v, x, name) ==> r <= x)
    ensures MapLookup(v, name) == r
  {
  }

  lemma LookupRefines(s: Store, name: CString)
    requires StoreWF(s)
    ensures Lookup(s, name) == MapLookup(ViewOf(s), name)
  {
    var v, r := ViewOf(s), Lookup(s, name);
    FindFromIsLeast(s, name, 0);
    forall id | Named(v, id, name)
      ensures 0 <= r <= id
    {
      MatchesIsNamed(s, id, name);
    }
    if r >= 0 {
      MatchesIsNamed(s, r, name);
    }
    LookupIs(v, name, r);
  }

  lemma {:induction false} FindFromIsLeast(s: Store, name: CString, id: nat)
    requires StoreWF(s) && id <= s.count
    ensures var r := FindFrom(s, name, id);
            r >= 0 ==> forall x :: id <= x < r ==> !Matches(s, x, name)
    decreases s.count - id
  {
    if id < s.count && !Matches(s, id, name) {
      FindFromIsLeast(s, name, id + 1);
    }
  }

  // ---- each operation refines the map's ---------------------------------------------

  lemma CreateRefines(s: Store, name: CString)
    requires StoreInv(s)
    ensures var (s', r) := AllocObject(s, name);
            StoreInv(s') && MapCreate(ViewOf(s), |s.objects|, name, ViewOf(s'), Code(r))
  {
    var id := FreeRow(s.objects, s.count, 0);
    if id < |s.objects| {
      StoredName(s.objects[id].name, name);
      var o := Object(true, CopyName(s.objects[id].name, name), ObjectLba(id), 0, UNTRUSTED);
      assert AllocObject(s, name) == (PutRow(s, id, o), id);
      PutRowView(s, id, o);
      FreeIsNext(s, id);
    } else {
      assert AllocObject(s, name) == (s, FAILED);
    }
  }

  /** The first free row is the lowest id the map does not have. */
  lemma FreeIsNext(s: Store, id: nat)
    requires StoreWF(s) && id == FreeRow(s.objects, s.count, 0) && id < |s.objects|
    ensures NextId(ViewOf(s), |s.objects|, id)
  {
  }

  /** Rewriting a live row without touching its bytes. */
  lemma PutLive(s: Store, id: int, o: Object)
    requires StoreWF(s) && id in ViewOf(s)
    requires ObjectOk(o) && o.lba == ObjectLba(id) && o.inUse && o.size == s.objects[id].size
    ensures StoreInv(PutRow(s, id, o))
    ensures ViewOf(PutRow(s, id, o)) == ViewOf(s)[id := ViewOf(s)[id].(name := CStr(o.name), trust := o.trust)]
  {
    PutRowView(s, id, o);
  }

  lemma RenameRefines(s: Store, id: int, name: CString)
    requires StoreInv(s)
    ensures var (s', r) := Rename(s, id, name);
            && StoreInv(s')
            && r == (if id !in ViewOf(s) || (Lookup(s, name) != -1 && Lookup(s, name) != id) then -1 else 0)
            && ViewOf(s') == if r == -1 then ViewOf(s)
                             else ViewOf(s)[id := ViewOf(s)[id].(name := Truncate(name))]
  {
    if id in ViewOf(s) {
      StoredName(s.objects[id].name, name);
      PutLive(s, id, s.objects[id].(name := CopyName(s.objects[id].name, name)));
    }
  }

  lemma DeleteRefines(s: Store, id: int)
    requires StoreInv(s)
    ensures var (s', r) := Delete(s, id);
            && StoreInv(s')
            && r == (if id in ViewOf(s) then 0 else -1)
            && ViewOf(s') == ViewOf(s) - {id}
  {
    if id in ViewOf(s) {
      var o := s.objects[id];
      var o' := o.(inUse := false, name := o.name[0 := 0], size := 0, trust := UNTRUSTED);
      assert o'.name[0] == 0;
      PutRowView(s, id, o');
    }
  }

  lemma ReadRefines(s: Store, id: int, len: nat)
    requires StoreInv(s)
    ensures var v := ViewOf(s);
            Read(s, id, len) == if id !in v || v[id].trust == REJECTED then None
                                else Some(if |v[id].bytes| > len then v[id].bytes[..len] else v[id].bytes)
  {
    if id in ViewOf(s) {
      var data := DataOf(s, id);
      var n := s.objects[id].size;
      assert n > len ==> data[..n][..len] == data[..len];
    }
  }

  /** Writing the data sectors of one object changes that object's bytes only. */
  lemma DataWritten(s: Store, id: nat, buf: seq<byte>)
    requires StoreInv(s) && id < |s.objects| && |buf| <= OBJECT_MAX_BYTES
    ensures var s1 := s.(disk := DiskWrite(s.disk, ObjectLba(id), PadData(buf)));
            StoreInv(s1) && Datas(s1) == Datas(s)[id := PadData(buf)]
  {
    var s1 := s.(disk := DiskWrite(s.disk, ObjectLba(id), PadData(buf)));
    WriteThenRead(s.disk, ObjectLba(id), PadData(buf), SECTORS_PER_OBJECT);
    WriteElsewhere(s.disk, ObjectLba(id), PadData(buf), DIRECTORY_LBA, 1);
    forall x | 0 <= x < |s.objects| && x != id
      ensures DataOf(s1, x) == DataOf(s, x)
    {
      WriteElsewhere(s.disk, ObjectLba(id), PadData(buf), ObjectLba(x), SECTORS_PER_OBJECT);
    }
  }

  lemma TableViewWritten(objects: seq<Object>, datas: seq<seq<byte>>, id: nat, buf: seq<byte>)
    requires TableOk(objects, datas) && id < |objects| && objects[id].inUse && |buf| <= OBJECT_MAX_BYTES
    ensures var v := TableView(objects, datas);
            var o := objects[id].(size := |buf|, trust := UNTRUSTED);
            SetEntity(TableView(objects, datas[id := PadData(buf)]), id, o, PadData(buf))
            == v[id := v[id].(bytes := buf, trust := UNTRUSTED)]
  {
    assert PadData(buf)[..|buf|] == buf;
  }

  /** A write replaces one object's bytes; every other object and the rest of the table stay. */
  lemma WriteRefines(s: Store, id: int, buf: seq<byte>)
    requires StoreInv(s)
    ensures var (s', r) := Write(s, id, buf);
            && StoreInv(s')
            && r == (if id in ViewOf(s) && |buf| <= OBJECT_MAX_BYTES then |buf| else -1)
            && ViewOf(s') == if r == -1 then ViewOf(s)
                             else ViewOf(s)[id := ViewOf(s)[id].(bytes := buf, trust := UNTRUSTED)]
  {
    if id in ViewOf(s) && |buf| <= OBJECT_MAX_BYTES {
      var s1 := s.(disk := DiskWrite(s.disk, ObjectLba(id), PadData(buf)));
      DataWritten(s, id, buf);
      PutRowView(s1, id, s.objects[id].(size := |buf|, trust := UNTRUSTED));
      TableViewWritten(s.objects, Datas(s), id, buf);
    }
  }

  /** Row id with another trust level, saved. */
  function Retrusted(s: Store, id: nat, trust: nat): Store
    requires StoreWF(s) && id < s.count && trust <= REJECTED
  {
    PutRow(s, id, s.objects[id].(trust := trust))
  }

  lemma LiveIsCounted(s: Store, id: int)
    requires StoreWF(s) && id in ViewOf(s)
    ensures 0 <= id < s.count && s.objects[id].inUse && ViewOf(s)[id].trust == s.objects[id].trust
  {
  }

  lemma PutTrust(s: Store, id: int, trust: nat)
    requires StoreWF(s) && id in ViewOf(s) && trust <= REJECTED && id < s.count
    ensures StoreInv(Retrusted(s, id, trust))
    ensures ViewOf(Retrusted(s, id, trust)) == ViewOf(s)[id := ViewOf(s)[id].(trust := trust)]
  {
    PutLive(s, id, s.objects[id].(trust := trust));
  }

  lemma PromoteIs(s: Store, id: int)
    requires StoreWF(s) && 0 <= id < s.count && s.objects[id].inUse && s.objects[id].trust < TRUSTED
    ensures Promote(s, id) == (Retrusted(s, id, s.objects[id].trust + 1), s.objects[id].trust + 1)
  {
  }

  lemma PromoteUp(s: Store, id: int)
    requires StoreInv(s) && id in ViewOf(s) && s.objects[id].trust < TRUSTED
    ensures var (s', r) := Promote(s, id);
            && StoreInv(s') && r == s.objects[id].trust + 1
            && ViewOf(s') == ViewOf(s)[id := ViewOf(s)[id].(trust := r)]
  {
    LiveIsCounted(s, id);
    PromoteIs(s, id);
    PutTrust(s, id, s.objects[id].trust + 1);
  }

  lemma PromoteRefines(s: Store, id: int)
    requires StoreInv(s)
    ensures var (s', r) := Promote(s, id);
            var v := ViewOf(s);
            && StoreInv(s')
            && r == (if id !in v || v[id].trust >= TRUSTED then -1 else v[id].trust + 1)
            && ViewOf(s') == if r == -1 then v else v[id := v[id].(trust := r)]
  {
    if id in ViewOf(s) {
      LiveIsCounted(s, id);
    }
    if id in ViewOf(s) && s.objects[id].trust < TRUSTED {
      PromoteUp(s, id);
    } else {
      assert Promote(s, id) == (s, FAILED);
    }
  }

  lemma RejectRefines(s: Store, id: int)
    requires StoreInv(s)
    ensures var (s', r) := Reject(s, id);
            var v := ViewOf(s);
            && StoreInv(s')
            && r == (if id in v then 0 else -1)
            && ViewOf(s') == if r == -1 then v else v[id := v[id].(trust := REJECTED)]
  {
    if id in ViewOf(s) {
      LiveIsCounted(s, id);
      assert Reject(s, id) == (Retrusted(s, id, REJECTED), 0);
      PutTrust(s, id, REJECTED);
    }
  }

  /** What the store can observe of two rows is the same. */
  predicate SameRow(a: Object, b: Object) {
    && a.inUse == b.inUse && a.size == b.size && a.trust == b.trust && CStr(a.name) == CStr(b.name)
  }

  lemma RebootRows(s: Store, id: nat)
    requires StoreWF(s) && id < s.count && DirSector(s) == Encode(s.objects[..s.count])
    ensures Reboot(s).count == s.count
    ensures var o := Reboot(s).objects[id]; SameRow(o, s.objects[id]) && ObjectOk(o) && o.lba == ObjectLba(id)
  {
    var saved := s.objects[..s.count];
    EncodedSector(saved);
    assert ObjectOk(saved[id]);
    EntryRoundTrip(saved[id], EmptyRow(), id);
  }

  lemma {:induction false} SameEncoding(a: seq<Object>, b: seq<Object>)
    requires |a| == |b|
    requires forall i :: 0 <= i < |a| ==> ObjectOk(a[i]) && ObjectOk(b[i]) && SameRow(a[i], b[i])
    ensures EncodeEntries(a) == EncodeEntries(b)
  {
    if a != [] {
      SameEncoding(a[1..], b[1..]);
    }
  }

  lemma SameView(a: seq<Object>, b: seq<Object>, datas: seq<seq<byte>>)
    requires TableOk(a, datas) && TableOk(b, datas)
    requires forall i :: 0 <= i < |a| ==> if b[i].inUse then SameRow(a[i], b[i]) else !a[i].inUse
    ensures TableView(a, datas) == TableView(b, datas)
  {
  }

  /** A reboot rebuilds the same map from the directory sector alone. */
  lemma RebootRefines(s: Store)
    requires StoreInv(s)
    ensures StoreInv(Reboot(s)) && ViewOf(Reboot(s)) == ViewOf(s)
  {
    if DirSector(s) == Encode(s.objects[..s.count]) {
      RebootSynced(s);
    }
  }

  lemma RebootSynced(s: Store)
    requires StoreWF(s) && DirSector(s) == Encode(s.objects[..s.count])
    ensures StoreInv(Reboot(s)) && ViewOf(Reboot(s)) == ViewOf(s)
  {
    RebootReads(s, Reboot(s));
    RebootedView(s, Reboot(s));
  }

  /** The table read back: the same rows, in step with the sector they came from. */
  lemma RebootReads(s: Store, s': Store)
    requires StoreWF(s) && DirSector(s) == Encode(s.objects[..s.count]) && s' == Reboot(s)
    ensures StoreInv(s') && s'.disk == s.disk && |s'.objects| == |s.objects| && s'.count == s.count
    ensures forall id :: 0 <= id < s.count ==> SameRow(s'.objects[id], s.objects[id])
  {
    RebootTable(s, s');
    RebootStays(s, s');
  }

  lemma RebootTable(s: Store, s': Store)
    requires StoreWF(s) && DirSector(s) == Encode(s.objects[..s.count]) && s' == Reboot(s)
    ensures StoreWF(s') && s'.disk == s.disk && |s'.objects| == |s.objects| && s'.count == s.count
    ensures forall id :: 0 <= id < s.count ==> SameRow(s'.objects[id], s.objects[id])
  {
    EncodedSector(s.objects[..s.count]);
    forall id | 0 <= id < s.count
      ensures SameRow(s'.objects[id], s.objects[id]) && ObjectOk(s'.objects[id]) && s'.objects[id].lba == ObjectLba(id)
    {
      RebootRows(s, id);
    }
  }

  lemma RebootStays(s: Store, s': Store)
    requires StoreWF(s) && StoreWF(s') && DirSector(s) == Encode(s.objects[..s.count])
    requires s'.disk == s.disk && |s'.objects| == |s.objects| && s'.count == s.count
    requires forall id :: 0 <= id < s.count ==> SameRow(s'.objects[id], s.objects[id])
    ensures StoreInv(s')
  {
    SameEncoding(s'.objects[..s.count], s.objects[..s.count]);
    assert Encode(s'.objects[..s.count]) == Encode(s.objects[..s.count]);
  }

  lemma RebootedView(s: Store, s': Store)
    requires StoreWF(s) && StoreWF(s') && s'.disk == s.disk && |s'.objects| == |s.objects| && s'.count == s.count
    requires forall id :: 0 <= id < s.count ==> SameRow(s'.objects[id], s.objects[id])
    ensures ViewOf(s') == ViewOf(s)
  {
    assert Datas(s') == Datas(s);
    SameView(s'.objects, s.objects, Datas(s));
  }

  ghost predicate Refines(s: Store, c: Command)
    requires StoreWF(s)
  {
    var (s', r) := Exec(s, c);
    StoreInv(s') && |s'.objects| == |s.objects| && MapExec(ViewOf(s), |s.objects|, c, ViewOf(s'), r)
  }

  lemma LookupCommand(s: Store, c: Command)
    requires StoreInv(s) && c.DoLookup?
    ensures Refines(s, c)
  {
    LookupRefines(s, c.name);
    assert Exec(s, c) == (s, Code(Lookup(s, c.name)));
  }

  lemma RenameCommand(s: Store, c: Command)
    requires StoreInv(s) && c.DoRename?
    ensures Refines(s, c)
  {
    LookupRefines(s, c.name);
    RenameRefines(s, c.id, c.name);
    var (s', r) := Rename(s, c.id, c.name);
    assert Exec(s, c) == (s', Code(r));
    assert MapExec(ViewOf(s), |s.objects|, c, ViewOf(s'), Code(r));
  }

  lemma CreateCommand(s: Store, c: Command)
    requires StoreInv(s) && (c.DoCreateObject? || c.DoCreateNamed?)
    ensures Refines(s, c)
  {
    LookupRefines(s, c.name);
    CreateRefines(s, c.name);
    if Lookup(s, c.name) >= 0 {
      assert Exec(s, c) == (s, Code(if c.DoCreateObject? then Lookup(s, c.name) else FAILED));
    } else {
      var (s', r) := AllocObject(s, c.name);
      assert Exec(s, c) == (s', Code(r));
      assert MapCreate(ViewOf(s), |s.objects|, c.name, ViewOf(s'), Code(r));
    }
  }

  lemma NamingRefines(s: Store, c: Command)
    requires StoreInv(s)
    requires c.DoCreateObject? || c.DoCreateNamed? || c.DoLookup? || c.DoRename?
    ensures Refines(s, c)
  {
    if c.DoLookup? {
      LookupCommand(s, c);
    } else if c.DoRename? {
      RenameCommand(s, c);
    } else {
      CreateCommand(s, c);
    }
  }

  lemma ContentRefines(s: Store, c: Command)
    requires StoreInv(s)
    requires c.DoDelete? || c.DoRead? || c.DoWrite? || c.DoReboot?
    ensures Refines(s, c)
  {
    match c
    case DoDelete(id) => DeleteRefines(s, id);
    case DoRead(id, len) => ReadRefines(s, id, len);
    case DoWrite(id, buf) => WriteRefines(s, id, buf);
    case DoReboot => RebootRefines(s);
  }

  lemma PromoteCommand(s: Store, c: Command)
    requires StoreInv(s) && c.DoPromote?
    ensures Refines(s, c)
  {
    PromoteRefines(s, c.id);
    var (s', r) := Promote(s, c.id);
    assert Exec(s, c) == (s', Code(r));
    MapPromotes(ViewOf(s), |s.objects|, c, ViewOf(s'), r);
  }

  lemma MapPromotes(v: View, max: nat, c: Command, v': View, r: int)
    requires c.DoPromote? && r == (if c.id !in v || v[c.id].trust >= TRUSTED then -1 else v[c.id].trust + 1)
    requires v' == if r == -1 then v else v[c.id := v[c.id].(trust := r)]
    ensures MapExec(v, max, c, v', Code(r))
  {
  }

  lemma RejectCommand(s: Store, c: Command)
    requires StoreInv(s) && c.DoReject?
    ensures Refines(s, c)
  {
    RejectRefines(s, c.id);
    var (s', r) := Reject(s, c.id);
    assert Exec(s, c) == (s', Code(r));
    assert MapExec(ViewOf(s), |s.objects|, c, ViewOf(s'), Code(r));
  }

  lemma TrustRefines(s: Store, c: Command)
    requires StoreInv(s)
    requires c.DoPromote? || c.DoReject?
    ensures Refines(s, c)
  {
    if c.DoPromote? {
      PromoteCommand(s, c);
    } else {
      RejectCommand(s, c);
    }
  }

  /** Every command refines the map's version of it and keeps the directory in step. */
  lemma ExecRefines(s: Store, c: Command)
    requires StoreInv(s)
    ensures Refines(s, c)
  {
    if c.DoPromote? || c.DoReject? {
      TrustRefines(s, c);
    } else if c.DoDelete? || c.DoRead? || c.DoWrite? || c.DoReboot? {
      ContentRefines(s, c);
    } else {
      NamingRefines(s, c);
    }
  }

  // ---- whole runs ---------------------------------------------------------------------

  /** Successive store states and replies of a command sequence. */
  ghost predicate IsStoreRun(ss: seq<Store>, cs: seq<Command>, rs: seq<Reply>) {
    && |ss| == |cs| + 1 && |rs| == |cs|
    && (forall i :: 0 <= i < |ss| ==> StoreWF(ss[i]))
    && (forall i :: 0 <= i < |cs| ==> (ss[i + 1], rs[i]) == Exec(ss[i], cs[i]))
  }

  ghost predicate IsMapRun(vs: seq<View>, max: nat, cs: seq<Command>, rs: seq<Reply>) {
    && |vs| == |cs| + 1 && |rs| == |cs|
    && (forall i :: 0 <= i < |cs| ==> MapExec(vs[i], max, cs[i], vs[i + 1], rs[i]))
  }

  ghost function Views(ss: seq<Store>): seq<View>
    requires forall i :: 0 <= i < |ss| ==> StoreWF(ss[i])
  {
    seq(|ss|, i requires 0 <= i < |ss| => ViewOf(ss[i]))
  }

  lemma ExecKeepsInv(s: Store, c: Command, s': Store)
    requires StoreInv(s) && s' == Exec(s, c).0
    ensures StoreInv(s') && |s'.objects| == |s.objects|
  {
    ExecRefines(s, c);
  }

  lemma RunKeepsInv(ss: seq<Store>, cs: seq<Command>, rs: seq<Reply>, i: nat)
    requires IsStoreRun(ss, cs, rs) && StoreInv(ss[0]) && i < |ss|
    ensures StoreInv(ss[i]) && |ss[i].objects| == |ss[0].objects|
  {
    var n := |ss[0].objects|;
    var inv := s => StoreInv(s) && |s.objects| == n;
    forall j | 0 <= j < |ss| - 1 && inv(ss[j])
      ensures inv(ss[j + 1])
    {
      ExecKeepsInv(ss[j], cs[j], ss[j + 1]);
    }
    Runs.Throughout(inv, ss, 0, i);
  }

  /**
    The store refines the map: any run of commands and reboots is, state by
    state and reply by reply, a run of the map.
   */
  lemma StoreRefinesMap(ss: seq<Store>, cs: seq<Command>, rs: seq<Reply>)
    requires IsStoreRun(ss, cs, rs) && StoreInv(ss[0])
    ensures IsMapRun(Views(ss), |ss[0].objects|, cs, rs)
    ensures forall i :: 0 <= i < |ss| ==> StoreInv(ss[i])
  {
    forall i | 0 <= i < |ss|
      ensures StoreInv(ss[i])
      ensures i < |cs| ==> MapExec(Views(ss)[i], |ss[0].objects|, cs[i], Views(ss)[i + 1], rs[i])
    {
      RunKeepsInv(ss, cs, rs, i);
      if i < |cs| {
        ExecRefines(ss[i], cs[i]);
      }
    }
  }

  /** A first boot on a disk without the magic starts an empty, consistent store. */
  lemma FirstBoot(max: nat, disk: seq<byte>)
    requires 8 + ENTRY_SIZE * max <= SECTOR && SECTOR * ObjectLba(max) <= |disk|
    requires !HasMagic(DiskRead(disk, DIRECTORY_LBA, 1))
    ensures StoreInv(Init(max, disk)) && ViewOf(Init(max, disk)) == map[]
  {
  }
}
