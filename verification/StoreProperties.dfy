/** What the object store's callers rely on: names, enumeration and the trust ladder. */
module StoreProperties {
  import opened Options
  import opened Words
  import opened Directory
  import opened StoreSpec
  import opened StoreRefinement

  // ---- the name index ---------------------------------------------------------

  ghost predicate NamesDistinct(v: View) {
    forall i, j :: i in v && j in v && i != j ==> v[i].name != v[j].name
  }

  /** The longest name that is stored whole. */
  const NAME_MAX: nat := NAME_SIZE - 1

  predicate NameFits(c: Command) {
    (c.DoCreateObject? || c.DoCreateNamed? || c.DoRename?) ==> |c.name| <= NAME_MAX
  }

  lemma StepKeepsNamesDistinct(v: View, max: nat, c: Command, v': View, r: Reply)
    requires MapExec(v, max, c, v', r) && NamesDistinct(v) && NameFits(c)
    ensures NamesDistinct(v')
  {
    if c.DoCreateObject? || c.DoCreateNamed? || c.DoRename? {
      LookupMeaning(v, c.name);
      assert Truncate(c.name) == c.name;
      assert forall i :: i in v && v[i].name == c.name ==> Named(v, i, c.name);
    }
  }

  /** Lookup finds a live object with that name, or there is none. */
  lemma LookupMeaning(v: View, name: seq<byte>)
    ensures MapLookup(v, name) != -1 ==> Named(v, MapLookup(v, name), name)
    ensures MapLookup(v, name) == -1 ==> forall id :: !Named(v, id, name)
  {
  }

  /** Over any run whose names fit, no two live objects ever share a name. */
  lemma {:induction false} NamesStayDistinct(vs: seq<View>, max: nat, cs: seq<Command>, rs: seq<Reply>, n: nat)
    requires IsMapRun(vs, max, cs, rs) && NamesDistinct(vs[0]) && n < |vs|
    requires forall i :: 0 <= i < |cs| ==> NameFits(cs[i])
    ensures NamesDistinct(vs[n])
  {
    if n > 0 {
      NamesStayDistinct(vs, max, cs, rs, n - 1);
      StepKeepsNamesDistinct(vs[n - 1], max, cs[n - 1], vs[n], rs[n - 1]);
    }
  }

  /** While names are distinct, lookup is the inverse of naming. */
  lemma LookupInvertsNaming(s: Store, id: int)
    requires StoreInv(s) && NamesDistinct(ViewOf(s)) && id in ViewOf(s)
    ensures Lookup(s, ViewOf(s)[id].name) == id
  {
    var v := ViewOf(s);
    LookupRefines(s, v[id].name);
    assert Named(v, id, v[id].name);
  }

  /**
    The bound is sharp: on a fresh store, creating the 15-byte prefix of a
    longer name and then the name itself gives two live objects with one name,
    because the stored name is cut to 15 bytes and the lookup is not.
   */
  lemma LongNamesCollide(max: nat, disk: seq<byte>, name: CString)
    requires 2 <= max && 8 + ENTRY_SIZE * max <= SECTOR && SECTOR * ObjectLba(max) <= |disk|
    requires !HasMagic(DiskRead(disk, DIRECTORY_LBA, 1))
    requires |name| > NAME_MAX
    ensures var s1 := CreateNamed(Init(max, disk), name[..NAME_MAX]).0;
            var s2 := CreateNamed(s1, name).0;
            StoreInv(s1) && NamesDistinct(ViewOf(s1)) && 0 in ViewOf(s2) && 1 in ViewOf(s2) && ViewOf(s2)[0].name == ViewOf(s2)[1].name
  {
    var s := Init(max, disk);
    FirstBoot(max, disk);
    var short: CString := name[..NAME_MAX];
    CreateFresh(s, short);
    var s1 := CreateNamed(s, short).0;
    assert 0 !in ViewOf(s);
    assert Truncate(short) == short;
    assert ViewOf(s1) == map[0 := Entity(short, [], UNTRUSTED)];
    CreateLong(s1, short, name);
  }

  lemma CreateLong(s: Store, short: CString, name: CString)
    requires StoreInv(s) && 2 <= |s.objects| && ViewOf(s) == map[0 := Entity(short, [], UNTRUSTED)]
    requires |name| > NAME_MAX && short == name[..NAME_MAX]
    ensures var v := ViewOf(CreateNamed(s, name).0); 0 in v && 1 in v && v[0].name == v[1].name
  {
    CreateFresh(s, name);
    var (s', id) := CreateNamed(s, name);
    SecondEntry(ViewOf(s), |s.objects|, name, ViewOf(s'), id);
  }

  /** The second object of a store takes id 1. */
  lemma SecondEntry(v: View, max: nat, name: CString, v': View, id: int)
    requires v.Keys == {0} && 2 <= max && MapCreate(v, max, name, v', Code(id))
    ensures v' == v[1 := Entity(Truncate(name), [], UNTRUSTED)]
  {
    assert 0 in v && 1 !in v;
  }

  /** Creating under a name nothing has. */
  lemma CreateFresh(s: Store, name: CString)
    requires StoreInv(s) && forall id :: id in ViewOf(s) ==> ViewOf(s)[id].name != name
    ensures var (s', r) := CreateNamed(s, name);
            StoreInv(s') && |s'.objects| == |s.objects| && MapCreate(ViewOf(s), |s.objects|, name, ViewOf(s'), Code(r))
  {
    LookupRefines(s, name);
    CreateRefines(s, name);
  }

  /** Creating keeps names distinct in every store if and only if the name fits. */
  lemma CreateKeepsNamesDistinctIff(max: nat, disk: seq<byte>, name: CString)
    requires 2 <= max && 8 + ENTRY_SIZE * max <= SECTOR && SECTOR * ObjectLba(max) <= |disk|
    requires !HasMagic(DiskRead(disk, DIRECTORY_LBA, 1))
    ensures |name| <= NAME_MAX <==>
            forall s :: StoreInv(s) && NamesDistinct(ViewOf(s)) ==> NamesDistinct(ViewOf(CreateNamed(s, name).0))
  {
    if |name| <= NAME_MAX {
      forall s | StoreInv(s) && NamesDistinct(ViewOf(s))
        ensures NamesDistinct(ViewOf(CreateNamed(s, name).0))
      {
        ShortNamesStayDistinct(s, name);
      }
    } else {
      LongNamesCollide(max, disk, name);
    }
  }

  lemma ShortNamesStayDistinct(s: Store, name: CString)
    requires StoreInv(s) && NamesDistinct(ViewOf(s)) && |name| <= NAME_MAX
    ensures NamesDistinct(ViewOf(CreateNamed(s, name).0))
  {
    LookupRefines(s, name);
    CreateRefines(s, name);
    var (s', r) := CreateNamed(s, name);
    StepKeepsNamesDistinct(ViewOf(s), |s.objects|, DoCreateNamed(name), ViewOf(s'), Code(r));
  }

  /** Renaming a live object to a name nothing has. */
  lemma RenameFresh(s: Store, id: int, name: CString)
    requires StoreInv(s) && id in ViewOf(s) && forall x :: x in ViewOf(s) ==> ViewOf(s)[x].name != name
    ensures var s' := Rename(s, id, name).0;
            StoreInv(s') && ViewOf(s') == ViewOf(s)[id := ViewOf(s)[id].(name := Truncate(name))]
  {
    LookupRefines(s, name);
    RenameRefines(s, id, name);
  }

  /** A store of two objects: the 15-byte prefix of a longer name, and an empty name. */
  lemma PrefixAndEmpty(max: nat, disk: seq<byte>, name: CString)
    requires 2 <= max && 8 + ENTRY_SIZE * max <= SECTOR && SECTOR * ObjectLba(max) <= |disk|
    requires !HasMagic(DiskRead(disk, DIRECTORY_LBA, 1)) && |name| > NAME_MAX
    ensures var s := CreateNamed(CreateNamed(Init(max, disk), name[..NAME_MAX]).0, []).0;
            && StoreInv(s) && ViewOf(s).Keys == {0, 1}
            && ViewOf(s)[0].name == name[..NAME_MAX] && ViewOf(s)[1].name == []
  {
    var s := Init(max, disk);
    FirstBoot(max, disk);
    var short: CString := name[..NAME_MAX];
    CreateFresh(s, short);
    var s1 := CreateNamed(s, short).0;
    assert 0 !in ViewOf(s);
    assert Truncate(short) == short;
    assert ViewOf(s1) == map[0 := Entity(short, [], UNTRUSTED)];
    SecondEmpty(s1, short);
  }

  lemma SecondEmpty(s: Store, short: CString)
    requires StoreInv(s) && 2 <= |s.objects| && ViewOf(s).Keys == {0} && ViewOf(s)[0].name == short != []
    ensures var s' := CreateNamed(s, []).0;
            StoreInv(s') && ViewOf(s') == ViewOf(s)[1 := Entity([], [], UNTRUSTED)]
  {
    CreateFresh(s, []);
    var (s', id) := CreateNamed(s, []);
    SecondEntry(ViewOf(s), |s.objects|, [], ViewOf(s'), id);
    assert Truncate([]) == [];
  }

  /** Renaming cuts the new name as creating does, with the same exact condition. */
  lemma RenameKeepsNamesDistinctIff(max: nat, disk: seq<byte>, name: CString)
    requires 2 <= max && 8 + ENTRY_SIZE * max <= SECTOR && SECTOR * ObjectLba(max) <= |disk|
    requires !HasMagic(DiskRead(disk, DIRECTORY_LBA, 1))
    ensures |name| <= NAME_MAX <==>
            forall s, id :: StoreInv(s) && NamesDistinct(ViewOf(s)) ==> NamesDistinct(ViewOf(Rename(s, id, name).0))
  {
    if |name| <= NAME_MAX {
      forall s, id | StoreInv(s) && NamesDistinct(ViewOf(s))
        ensures NamesDistinct(ViewOf(Rename(s, id, name).0))
      {
        ShortRenamesStayDistinct(s, id, name);
      }
    } else {
      PrefixAndEmpty(max, disk, name);
      var s := CreateNamed(CreateNamed(Init(max, disk), name[..NAME_MAX]).0, []).0;
      LongRenameCollides(s, name);
    }
  }

  lemma LongRenameCollides(s: Store, name: CString)
    requires StoreInv(s) && ViewOf(s).Keys == {0, 1} && |name| > NAME_MAX
    requires ViewOf(s)[0].name == name[..NAME_MAX] && ViewOf(s)[1].name == []
    ensures NamesDistinct(ViewOf(s)) && StoreInv(Rename(s, 1, name).0) && !NamesDistinct(ViewOf(Rename(s, 1, name).0))
  {
    TwoNames(ViewOf(s), name);
    RenameFresh(s, 1, name);
    RenamedClash(ViewOf(s), name, ViewOf(Rename(s, 1, name).0));
  }

  lemma TwoNames(v: View, name: CString)
    requires v.Keys == {0, 1} && |name| > NAME_MAX && v[0].name == name[..NAME_MAX] && v[1].name == []
    ensures NamesDistinct(v) && 1 in v && forall x :: x in v ==> v[x].name != name
  {
    assert forall x :: x in v ==> x in {0, 1};
    assert 0 in v && 1 in v;
  }

  lemma RenamedClash(v: View, name: CString, v': View)
    requires v.Keys == {0, 1} && |name| > NAME_MAX && v[0].name == name[..NAME_MAX] && 1 in v
    requires v' == v[1 := v[1].(name := Truncate(name))]
    ensures !NamesDistinct(v')
  {
    assert 0 in v' && 1 in v' && v'[0].name == v'[1].name;
  }

  lemma ShortRenamesStayDistinct(s: Store, id: int, name: CString)
    requires StoreInv(s) && NamesDistinct(ViewOf(s)) && |name| <= NAME_MAX
    ensures NamesDistinct(ViewOf(Rename(s, id, name).0))
  {
    var c := DoRename(id, name);
    ExecRefines(s, c);
    var (s', r) := Rename(s, id, name);
    assert Exec(s, c) == (s', Code(r));
    StepKeepsNamesDistinct(ViewOf(s), |s.objects|, c, ViewOf(s'), Code(r));
  }

  /** Boot-time creation of a name that fits is idempotent, also across a reboot in between. */
  lemma CreateObjectIdempotent(s: Store, name: CString, s1: Store, id: int)
    requires StoreInv(s) && |name| <= NAME_MAX && id != -1 && (s1, id) == CreateObject(s, name)
    ensures StoreInv(s1) && CreateObject(s1, name) == (s1, id)
    ensures StoreInv(Reboot(s1)) && CreateObject(Reboot(s1), name) == (Reboot(s1), id)
  {
    CreatedIsLowest(s, name, s1, id);
    LookupRefines(s1, name);
    RebootRefines(s1);
    LookupRefines(Reboot(s1), name);
  }

  lemma CreatedIsLowest(s: Store, name: CString, s1: Store, id: int)
    requires StoreInv(s) && |name| <= NAME_MAX && id != -1 && (s1, id) == CreateObject(s, name)
    ensures StoreInv(s1) && MapLookup(ViewOf(s1), name) == id
  {
    LookupRefines(s, name);
    if Lookup(s, name) == -1 {
      CreateRefines(s, name);
      LookupMeaning(ViewOf(s), name);
      LookupAfterCreate(ViewOf(s), name, id);
    }
  }

  lemma LookupAfterCreate(v: View, name: CString, id: nat)
    requires |name| <= NAME_MAX && id !in v && forall x :: !Named(v, x, name)
    ensures MapLookup(v[id := Entity(Truncate(name), [], UNTRUSTED)], name) == id
  {
    var v' := v[id := Entity(Truncate(name), [], UNTRUSTED)];
    assert Truncate(name) == name;
    assert Named(v', id, name);
    assert forall x :: Named(v', x, name) ==> x == id || Named(v, x, name);
  }

  // ---- enumeration --------------------------------------------------------------

  /** The live ids from `id` on, in increasing order. */
  function LiveIds(s: Store, id: nat): (r: seq<int>)
    requires StoreWF(s) && id <= s.count
    decreases s.count - id
  {
    if id == s.count then []
    else if s.objects[id].inUse then [id] + LiveIds(s, id + 1)
    else LiveIds(s, id + 1)
  }

  lemma {:induction false} LiveIdsSorted(s: Store, id: nat)
    requires StoreWF(s) && id <= s.count
    ensures forall i, j :: 0 <= i < j < |LiveIds(s, id)| ==> LiveIds(s, id)[i] < LiveIds(s, id)[j]
    ensures forall x :: x in LiveIds(s, id) <==> id <= x < s.count && s.objects[x].inUse
    decreases s.count - id
  {
    if id < s.count {
      LiveIdsSorted(s, id + 1);
      var l, rest := LiveIds(s, id), LiveIds(s, id + 1);
      forall i | 0 <= i < |rest|
        ensures id < rest[i]
      {
        assert rest[i] in rest;
      }
      if s.objects[id].inUse {
        assert l == [id] + rest;
      } else {
        assert l == rest;
      }
    }
  }

  lemma {:induction false} NthFromIsIndex(s: Store, nth: int, id: nat)
    requires StoreWF(s) && id <= s.count
    ensures var l := LiveIds(s, id); NthFrom(s, nth, id) == if 0 <= nth < |l| then l[nth] else -1
    decreases s.count - id
  {
    if id < s.count {
      NthFromIsIndex(s, nth, id + 1);
      NthFromIsIndex(s, nth - 1, id + 1);
    }
  }

  /**
    Asking for 0, 1, 2, ... yields every live id exactly once, in increasing
    order, and then stops; a negative position yields nothing.
   */
  lemma EnumerationExact(s: Store)
    requires StoreWF(s)
    ensures var l := LiveIds(s, 0);
            && (forall nth :: NthLive(s, nth) == if 0 <= nth < |l| then l[nth] else -1)
            && (forall i, j :: 0 <= i < j < |l| ==> l[i] < l[j])
            && (forall x :: x in l <==> x in ViewOf(s))
  {
    LiveIdsSorted(s, 0);
    forall nth
      ensures NthLive(s, nth) == if 0 <= nth < |LiveIds(s, 0)| then LiveIds(s, 0)[nth] else -1
    {
      NthFromIsIndex(s, nth, 0);
    }
  }

  /** And each comes with the name, trust and size of the object it stands for. */
  lemma ListingExact(s: Store, nth: int)
    requires StoreWF(s)
    ensures var (l, v, r) := (LiveIds(s, 0), ViewOf(s), GetByIndex(s, nth));
            && (r.Some? <==> 0 <= nth < |l|)
            && (r.Some? ==> r.value.id == l[nth] && r.value.id in v
                            && r.value == Listing(r.value.id, v[r.value.id].name, v[r.value.id].trust, |v[r.value.id].bytes|))
  {
    EnumerationExact(s);
    NthFromInRange(s, nth, 0);
    var l := LiveIds(s, 0);
    if 0 <= nth < |l| {
      assert l[nth] in l;
    }
  }

  // ---- trust is history ------------------------------------------------------------

  datatype Verdict = Verdict(rejected: bool, promotions: nat)

  /** What the first n commands and their replies say about object `id` since it was last written or created. */
  ghost function Since(vs: seq<View>, max: nat, cs: seq<Command>, rs: seq<Reply>, id: int, n: nat): Verdict
    requires IsMapRun(vs, max, cs, rs) && n < |vs|
  {
    if n == 0 then Verdict(false, 0)
    else
      var prior := Since(vs, max, cs, rs, id, n - 1);
      var c := cs[n - 1];
      if id !in vs[n - 1] && id in vs[n] then Verdict(false, 0)
      else if rs[n - 1].Code? && rs[n - 1].code >= 0 then
        match c
        case DoWrite(x, _) => if x == id then Verdict(false, 0) else prior
        case DoPromote(x) => if x == id then prior.(promotions := prior.promotions + 1) else prior
        case DoReject(x) => if x == id then prior.(rejected := true) else prior
        case _ => prior
      else prior
  }

  /**
    Trust equals history: a live object is rejected if it was rejected since it
    was last written or created, and otherwise its trust level is the number of
    successful promotions since then.
   */
  lemma {:induction false} TrustIsHistory(vs: seq<View>, max: nat, cs: seq<Command>, rs: seq<Reply>, id: int, n: nat)
    requires IsMapRun(vs, max, cs, rs) && n < |vs| && id !in vs[0] && id in vs[n]
    ensures var h := Since(vs, max, cs, rs, id, n);
            vs[n][id].trust == if h.rejected then REJECTED else h.promotions
  {
    if n > 0 && id in vs[n - 1] {
      TrustIsHistory(vs, max, cs, rs, id, n - 1);
      assert MapExec(vs[n - 1], max, cs[n - 1], vs[n], rs[n - 1]);
    }
  }

  /** Once rejected, an object yields no bytes until it is overwritten or deleted and created again. */
  lemma RejectedYieldsNothing(vs: seq<View>, max: nat, cs: seq<Command>, rs: seq<Reply>, id: int, n: nat)
    requires IsMapRun(vs, max, cs, rs) && n < |cs| && id !in vs[0] && id in vs[n]
    requires Since(vs, max, cs, rs, id, n).rejected && cs[n].DoRead? && cs[n].id == id
    ensures rs[n] == Bytes(None)
  {
    TrustIsHistory(vs, max, cs, rs, id, n);
    assert MapExec(vs[n], max, cs[n], vs[n + 1], rs[n]);
  }
}
