/** The object table of core/storage.c and its byte-level form in the directory sector. */
module Directory {
  import opened Words

  const SECTOR: nat := 512
  const SECTORS_PER_OBJECT: nat := 4
  const OBJECT_MAX_BYTES: nat := 2048
  const OBJECT_DATA_BASE_LBA: nat := 130
  const DIRECTORY_LBA: nat := 125
  const DIRECTORY_MAGIC: nat := 0x52494456
  const ENTRY_SIZE: nat := 32
  const NAME_SIZE: nat := 16

  const UNTRUSTED: nat := 0
  const TRUSTED: nat := 3
  const REJECTED: nat := 4

  /** A NUL-terminated string, without its terminator. */
  type CString = s: seq<byte> | forall i :: 0 <= i < |s| ==> s[i] != 0 witness []

  /** One row of the table; `name` is the raw 16-byte array, leftovers after the NUL included. */
  datatype Object = Object(inUse: bool, name: seq<byte>, lba: nat, size: nat, trust: nat)

  // ---- fixed-size C strings -------------------------------------------------

  /** The bytes before the first NUL. */
  function CStr(raw: seq<byte>): (s: CString)
    ensures |s| <= |raw|
    ensures s == raw[..|s|]
    ensures |s| < |raw| ==> raw[|s|] == 0
  {
    if raw == [] || raw[0] == 0 then []
    else
      var t := CStr(raw[1..]);
      var s := [raw[0]] + t;
      s
  }

  /** strncpy as alloc_object does it: at most 15 bytes, a NUL, and the old bytes after it. */
  function CopyName(raw: seq<byte>, given: CString): (r: seq<byte>)
    requires |raw| == NAME_SIZE
    ensures |r| == NAME_SIZE
  {
    var k := if |given| < NAME_SIZE - 1 then |given| else NAME_SIZE - 1;
    given[..k] + [0] + raw[k + 1..]
  }

  function Truncate(given: CString): CString {
    if |given| < NAME_SIZE - 1 then given else given[..NAME_SIZE - 1]
  }

  lemma CStrUnique(raw: seq<byte>, k: nat)
    requires k < |raw| && raw[k] == 0 && forall i :: 0 <= i < k ==> raw[i] != 0
    ensures CStr(raw) == raw[..k]
  {
    var s := CStr(raw);
    assert forall i :: 0 <= i < |s| ==> s[i] == raw[i] && s[i] != 0;
    assert |s| == k;
  }

  /** Storing a name and reading it back gives its first 15 bytes, whatever was there before. */
  lemma StoredName(raw: seq<byte>, given: CString)
    requires |raw| == NAME_SIZE
    ensures CStr(CopyName(raw, given)) == Truncate(given)
    ensures raw[NAME_SIZE - 1] == 0 ==> CopyName(raw, given)[NAME_SIZE - 1] == 0
  {
    var r := CopyName(raw, given);
    var k := |Truncate(given)|;
    assert r[k] == 0;
    CStrUnique(r, k);
    assert r[..k] == given[..k];
  }

  /** A 16-byte field holding a C string, NUL padded. */
  function PadName(s: CString): (r: seq<byte>)
    requires |s| < NAME_SIZE
    ensures |r| == NAME_SIZE
  {
    s + seq(NAME_SIZE - |s|, i => 0)
  }

  lemma PadNameRoundTrip(s: CString)
    requires |s| < NAME_SIZE
    ensures CStr(PadName(s)) == s
  {
    assert PadName(s)[|s|] == 0;
    CStrUnique(PadName(s), |s|);
    assert PadName(s)[..|s|] == s;
  }

  // ---- the codec ------------------------------------------------------------

  predicate ObjectOk(o: Object) {
    |o.name| == NAME_SIZE && o.name[NAME_SIZE - 1] == 0 && o.size <= OBJECT_MAX_BYTES && o.trust <= REJECTED
  }

  function EncodeEntry(o: Object): (r: seq<byte>)
    requires ObjectOk(o)
    ensures |r| == ENTRY_SIZE
  {
    CStrShort(o.name);
    [if o.inUse then 1 else 0, o.trust, 0, 0] + LittleEndian(o.size, 4) + PadName(CStr(o.name)) + Zeros(8)
  }

  function Zeros(n: nat): (r: seq<byte>)
    ensures |r| == n
  {
    seq(n, i => 0)
  }

  lemma CStrShort(raw: seq<byte>)
    requires |raw| == NAME_SIZE && raw[NAME_SIZE - 1] == 0
    ensures |CStr(raw)| < NAME_SIZE
  {
    var s := CStr(raw);
    assert forall j :: 0 <= j < |s| ==> s[j] == raw[j] && s[j] != 0;
  }

  function EncodeEntries(objects: seq<Object>): (r: seq<byte>)
    requires forall o :: o in objects ==> ObjectOk(o)
    ensures |r| == ENTRY_SIZE * |objects|
  {
    if objects == [] then [] else EncodeEntry(objects[0]) + EncodeEntries(objects[1..])
  }

  /** directory_save: magic, count, then one 32-byte entry per object, the rest zero. */
  function Encode(objects: seq<Object>): (r: seq<byte>)
    requires 8 + ENTRY_SIZE * |objects| <= SECTOR
    requires forall o :: o in objects ==> ObjectOk(o)
    ensures |r| == SECTOR
  {
    LittleEndian(DIRECTORY_MAGIC, 4) + [|objects|, 0, 0, 0] + EncodeEntries(objects)
    + Zeros(SECTOR - 8 - ENTRY_SIZE * |objects|)
  }

  function ObjectLba(id: nat): nat {
    OBJECT_DATA_BASE_LBA + SECTORS_PER_OBJECT * id
  }

  /** directory_load's reading of entry `id`; `prior` supplies the name bytes it leaves alone. */
  function DecodeEntry(e: seq<byte>, prior: Object, id: nat): (o: Object)
    requires |e| == ENTRY_SIZE && |prior.name| == NAME_SIZE
  {
    Object(e[0] != 0, CopyName(prior.name, CStr(e[8..8 + NAME_SIZE])), ObjectLba(id),
           FromLittleEndian(e[4..8]), e[1])
  }

  function EntryBytes(sector: seq<byte>, id: nat): (r: seq<byte>)
    requires |sector| == SECTOR && 8 + ENTRY_SIZE * (id + 1) <= SECTOR
    ensures |r| == ENTRY_SIZE
  {
    sector[8 + ENTRY_SIZE * id..8 + ENTRY_SIZE * (id + 1)]
  }

  predicate HasMagic(sector: seq<byte>)
    requires |sector| == SECTOR
  {
    FromLittleEndian(sector[..4]) == DIRECTORY_MAGIC
  }

  /** How many entries directory_load takes: the stored count, clamped to the table. */
  function LoadCount(sector: seq<byte>, max: nat): (n: nat)
    requires |sector| == SECTOR
    ensures n <= max
  {
    if !HasMagic(sector) then 0 else if sector[4] > max then max else sector[4]
  }

  // ---- round trip -----------------------------------------------------------

  lemma {:induction false} EncodedEntryAt(objects: seq<Object>, id: nat)
    requires id < |objects| && forall o :: o in objects ==> ObjectOk(o)
    ensures EncodeEntries(objects)[ENTRY_SIZE * id..ENTRY_SIZE * (id + 1)] == EncodeEntry(objects[id])
  {
    var rest := objects[1..];
    if id > 0 {
      EncodedEntryAt(rest, id - 1);
      assert EncodeEntries(objects)[ENTRY_SIZE..] == EncodeEntries(rest);
      assert EncodeEntries(objects)[ENTRY_SIZE * id..ENTRY_SIZE * (id + 1)]
          == EncodeEntries(rest)[ENTRY_SIZE * (id - 1)..ENTRY_SIZE * id];
    }
  }

  lemma EncodedSector(objects: seq<Object>)
    requires 8 + ENTRY_SIZE * |objects| <= SECTOR
    requires forall o :: o in objects ==> ObjectOk(o)
    ensures HasMagic(Encode(objects)) && Encode(objects)[4] == |objects|
    ensures forall id :: 0 <= id < |objects| ==> EntryBytes(Encode(objects), id) == EncodeEntry(objects[id])
  {
    var r := Encode(objects);
    assert r[..4] == LittleEndian(DIRECTORY_MAGIC, 4);
    assert Pow256(4) == 0x1_0000_0000 by {
      assert Pow256(1) == 256;
      assert Pow256(2) == 65536;
      assert Pow256(3) == 16777216;
    }
    LittleEndianRoundTrip(DIRECTORY_MAGIC, 4);
    forall id | 0 <= id < |objects|
      ensures EntryBytes(r, id) == EncodeEntry(objects[id])
    {
      EncodedEntryAt(objects, id);
      var es := EncodeEntries(objects);
      assert r[8..8 + |es|] == es;
      assert EntryBytes(r, id) == es[ENTRY_SIZE * id..ENTRY_SIZE * (id + 1)];
    }
  }

  /** Decoding an encoded row gives back everything the store can observe of it. */
  lemma EntryRoundTrip(o: Object, prior: Object, id: nat)
    requires ObjectOk(o) && |prior.name| == NAME_SIZE && prior.name[NAME_SIZE - 1] == 0
    ensures var d := DecodeEntry(EncodeEntry(o), prior, id);
            && ObjectOk(d)
            && d.inUse == o.inUse && d.size == o.size && d.trust == o.trust
            && CStr(d.name) == CStr(o.name) && d.lba == ObjectLba(id)
  {
    CStrShort(o.name);
    EntryParts(o);
    SizeRoundTrip(o.size);
    PadNameRoundTrip(CStr(o.name));
    StoredName(prior.name, CStr(o.name));
  }

  /** Where the fields of an entry lie. */
  lemma EntryParts(o: Object)
    requires ObjectOk(o)
    ensures |CStr(o.name)| < NAME_SIZE
    ensures var e := EncodeEntry(o);
            && e[0] == (if o.inUse then 1 else 0) && e[1] == o.trust
            && e[4..8] == LittleEndian(o.size, 4) && e[8..8 + NAME_SIZE] == PadName(CStr(o.name))
  {
    CStrShort(o.name);
    var head: seq<byte> := [if o.inUse then 1 else 0, o.trust, 0, 0];
    var size, name := LittleEndian(o.size, 4), PadName(CStr(o.name));
    var e := EncodeEntry(o);
    assert e == head + size + name + Zeros(8);
    assert e[4..8] == size;
    assert e[8..8 + NAME_SIZE] == name;
  }

  lemma SizeRoundTrip(size: nat)
    requires size <= OBJECT_MAX_BYTES
    ensures FromLittleEndian(LittleEndian(size, 4)) == size
  {
    assert size < Pow256(2) <= Pow256(4) by {
      assert Pow256(1) == 256;
      assert Pow256(3) == 256 * Pow256(2);
    }
    LittleEndianRoundTrip(size, 4);
  }
}
