/** hal/x86_64/paging.c: the table arrays, filled in place, refining Paging. */
module AddressSpaces {
  import opened Paging

  class AddressSpaces {
    const layout: Layout
    const bootPd: Table
    var pml4: seq<Table>
    var pdpt: seq<Table>
    var pd: seq<Table>
    var pt0: seq<Table>
    var pt1: seq<Table>
    var pt1Owner: seq<int>
    var poolInitDone: bool

    ghost function State(): Spaces
      reads this
    {
      Spaces(layout, bootPd, pml4, pdpt, pd, pt0, pt1, pt1Owner, poolInitDone)
    }

    ghost predicate Valid()
      reads this
    {
      State().Sized()
    }

    /** Zeroed tables, as .bss provides them. */
    constructor (layout: Layout, bootPd: Table, slots: nat, poolSize: nat)
      ensures Valid() && |pml4| == slots && |pt1| == poolSize && !poolInitDone
      ensures State().layout == layout && State().bootPd == bootPd
      ensures forall q, j :: 0 <= q < poolSize && 0 <= j < ENTRIES ==> pt1[q][j].Absent?
    {
      this.layout := layout;
      this.bootPd := bootPd;
      var empty: Table := seq(ENTRIES, i => Absent);
      pml4 := seq(slots, i => empty);
      pdpt := seq(slots, i => empty);
      pd := seq(slots, i => empty);
      pt0 := seq(slots, i => empty);
      pt1 := seq(poolSize, i => empty);
      pt1Owner := seq(poolSize, i => 0);
      poolInitDone := false;
    }

    /** Clears a row, then points entry 0 at the next level. */
    method FillPointer(next: nat) returns (t: Table)
      ensures t == Pointer(next)
    {
      var row := new Pte[ENTRIES](i => Absent);
      row[0] := User(next);
      t := row[..];
      assert forall i :: 0 <= i < ENTRIES ==> t[i] == Pointer(next)[i];
    }

    /** 0-1MB identity mapped, .user_text for ring 3; then the private pages; the rest absent. */
    method FillPt0(base: nat, size: nat) returns (t: Table)
      requires COMMONS_END <= base && base + size <= PRIVATE_WINDOW_END
      ensures t == Pt0Row(State(), base, size)
    {
      var row := new Pte[ENTRIES](i => Absent);
      var addr := 0;
      while addr < COMMONS_END
        invariant 0 <= addr <= COMMONS_END && addr % PAGE == 0
        invariant forall j :: 0 <= j < ENTRIES ==>
                    row[j] == if PAGE * j < addr then CommonsEntry(State(), j) else Absent
      {
        var isUserText := layout.userTextStart <= addr < layout.userTextEnd;
        row[addr / PAGE] := if isUserText then User(addr / PAGE) else Supervisor(addr / PAGE);
        addr := addr + PAGE;
      }
      addr := base;
      ghost var offset := base % PAGE;
      while addr < base + size
        invariant base <= addr && addr % PAGE == offset
        invariant forall j :: 0 <= j < ENTRIES ==>
                    row[j] == if PAGE * j < COMMONS_END then CommonsEntry(State(), j)
                              else if base <= PAGE * j + offset < addr && PAGE * j + offset < base + size then User(j)
                              else Absent
      {
        row[addr / PAGE] := User(addr / PAGE);
        addr := addr + PAGE;
      }
      t := row[..];
      assert forall j :: 0 <= j < ENTRIES ==> t[j] == Pt0Entry(State(), base, size, j);
    }

    /** Entry 0 is the actor's own first 2MB; everything above is copied from the boot directory. */
    method FillPd(slot: nat) returns (t: Table)
      requires Valid()
      ensures t == PdRow(State(), slot)
    {
      var row := new Pte[ENTRIES](i => Absent);
      row[0] := User(layout.pt0 + slot);
      var i := 1;
      while i < ENTRIES
        invariant 1 <= i <= ENTRIES
        invariant row[0] == User(layout.pt0 + slot)
        invariant forall j :: 1 <= j < i ==> row[j] == bootPd[j]
      {
        row[i] := bootPd[i];
        i := i + 1;
      }
      t := row[..];
      assert forall j :: 0 <= j < ENTRIES ==> t[j] == PdRow(State(), slot)[j];
    }

    /** hal_address_space_create. */
    method Create(slot: int, base: nat, size: nat) returns (cr3: nat)
      requires Valid()
      modifies this
      ensures Valid()
      ensures (State(), cr3) == CreateSpace(old(State()), slot, base, size)
    {
      if slot < 0 || slot >= |pml4| {
        return 0;
      }
      if base < COMMONS_END || base + size > PRIVATE_WINDOW_END {
        return 0;
      }
      var t4 := FillPointer(layout.pdpt + slot);
      var t3 := FillPointer(layout.pd + slot);
      var t2 := FillPd(slot);
      var t1 := FillPt0(base, size);
      pml4 := pml4[slot := t4];
      pdpt := pdpt[slot := t3];
      pd := pd[slot := t2];
      pt0 := pt0[slot := t1];
      cr3 := layout.pml4 + slot;
    }

    /** The pool scan: the first entry that is free or already the slot's own. */
    method FindPoolEntry(slot: int) returns (k: nat)
      requires Valid()
      ensures k == PoolIndex(pt1Owner, slot)
    {
      k := 0;
      while k < |pt1Owner|
        invariant 0 <= k <= |pt1Owner|
        invariant PoolIndex(pt1Owner, slot) == k + PoolIndex(pt1Owner[k..], slot)
      {
        if pt1Owner[k] == slot || pt1Owner[k] == -1 {
          return;
        }
        assert pt1Owner[k..][1..] == pt1Owner[k + 1..];
        k := k + 1;
      }
    }

    method FillProgram(phys: nat, size: nat) returns (t: Table)
      requires size <= PROGRAM_WINDOW_MAX
      ensures t == ProgramRow(phys, size)
    {
      var row := new Pte[ENTRIES](i => Absent);
      var off := 0;
      while off < size
        invariant 0 <= off && off % PAGE == 0
        invariant forall j :: 0 <= j < ENTRIES ==>
                    row[j] == if PAGE * j < off && PAGE * j < size then User(phys / PAGE + j) else Absent
      {
        row[off / PAGE] := User(phys / PAGE + off / PAGE);
        off := off + PAGE;
      }
      t := row[..];
      assert forall j :: 0 <= j < ENTRIES ==> t[j] == ProgramEntry(phys, size, j);
    }

    /** hal_address_space_map_program. */
    method MapProgramWindow(slot: int, phys: nat, size: nat) returns (ok: bool)
      requires Valid()
      modifies this
      ensures Valid()
      ensures (State(), ok) == MapProgram(old(State()), slot, phys, size)
    {
      if slot < 0 || slot >= |pml4| {
        return false;
      }
      if size == 0 || size > PROGRAM_WINDOW_MAX {
        return false;
      }
      if !poolInitDone {
        pt1Owner := seq(|pt1Owner|, i => -1);
        poolInitDone := true;
      }
      assert pt1Owner == Owners(old(State()));
      var k := FindPoolEntry(slot);
      if k == |pt1Owner| {
        return false;
      }
      pt1Owner := pt1Owner[k := slot];
      var row := FillProgram(phys, size);
      pt1 := pt1[k := row];
      var dir: seq<Pte> := pd[slot];
      pd := pd[slot := dir[PROGRAM_PD := User(layout.pt1 + k)]];
      ok := true;
    }
  }
}
