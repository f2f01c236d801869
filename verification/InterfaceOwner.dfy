/** Who owns an interface block: the probe and disconnect paths of the two device drivers
    (driver_src/wlan/tdsp_bus.c, driver_src/new_bluetooth/tdsp_bus.c). */
module InterfaceOwner {
  import opened BusTypes
  import opened BusSpec
  import opened BusRuns
  import opened BusProperties

  lemma DistinctBlocks(st: State, i: nat, j: nat)
    requires Inv(st) && i < j < SLOTS && st.slots[i].intf != 0
    ensures st.slots[i].intf != st.slots[j].intf
  {
    assert st.slots[i].serialNo == SerialOf(i) && st.slots[j].serialNo == SerialOf(j);
  }

  /** After any run, every pointer in the slot table points to memory that has not been freed,
      and no two slots share a block. */
  lemma NoDanglingPointer(steps: seq<Step>, i: nat, j: nat)
    requires i < SLOTS && j < SLOTS
    ensures var st := RunFrom(Start(), steps).st;
            && (st.slots[i].intf != 0 ==> st.slots[i].intf in st.mem)
            && (i != j && st.slots[i].intf != 0 ==> st.slots[i].intf != st.slots[j].intf)
  {
    var st := RunFrom(Start(), steps).st;
    assert Inv(st);
    if i != j && st.slots[i].intf != 0 && st.slots[j].intf != 0 {
      if i < j { DistinctBlocks(st, i, j); } else { DistinctBlocks(st, j, i); }
    }
  }

  lemma RegisterSucceeds(st: State, p: Addr, serial: nat, cb: Callbacks)
    requires WellFormed(st) && p != 0 && p in st.mem && st.slots[2].intf == 0
    ensures Register(Prepared(st, p, serial), p, cb).status == Success <==>
              (serial == BT && st.slots[0].intf == 0) || (serial == WLAN && st.slots[1].intf == 0)
  {
  }

  lemma Registers(st: State, p: Addr, cb: Callbacks)
    requires WellFormed(st) && p != 0 && p in st.mem && Register(st, p, cb).status == Success
    ensures var o := Register(st, p, cb); p in o.st.mem && PhaseIn(o.st, p).In?
  {
  }

  /** A probe (allocate, register, retry, free) succeeds exactly when the serial number is BT or
      WLAN and its slot is free; then the block is live and registered. When it fails it leaves
      the bus, and the memory, as they were, without having called anything. */
  lemma ProbeOutcome(w: World, p: Addr, serial: nat, cb: Callbacks)
    requires Sound(w) && p != 0 && p !in w.st.mem
    ensures var got := NewInterface(w.st, p);
            && p in got.mem
            && var o := OpenInterface(got, p, serial, cb);
               && (o.status == Success <==>
                     (serial == BT && w.st.slots[0].intf == 0) || (serial == WLAN && w.st.slots[1].intf == 0))
               && (o.status == Success ==> WellFormed(o.st) && p in o.st.mem && PhaseIn(o.st, p).In?)
               && (o.status != Success ==> o.st == w.st && o.events == [])
  {
    var got := NewInterface(w.st, p);
    OpenEffect(got, p, serial, cb);
    RegisterSucceeds(got, p, serial, cb);
    if Register(Prepared(got, p, serial), p, cb).status == Success {
      Registers(Prepared(got, p, serial), p, cb);
    } else {
      assert got.mem - {p} == w.st.mem;
    }
  }

  lemma UnregisterSlots(st: State, p: Addr, cb: Callbacks, i: nat)
    requires Inv(st) && p in st.mem && i < SLOTS
    ensures var o := Unregister(st, p, cb);
            o.st.slots[i] == if st.slots[i].intf == p then st.slots[i].(intf := 0) else st.slots[i]
  {
    if PhaseIn(st, p).In? {
      OwnSlot(st, p);
      var k := SlotOf(st.mem[p].serialNo).value;
      if k < i { DistinctBlocks(st, k, i); } else if i < k { if st.slots[i].intf != 0 { DistinctBlocks(st, i, k); } }
    } else {
      assert st.slots[i].intf != p;
      assert Settle(st) == st;
    }
  }

  /** A disconnect removes the pointer before the block is freed: afterwards no slot refers to
      it, the block is gone, and nothing else has changed in memory or in the other slots. */
  lemma DisconnectOutcome(w: World, p: Addr, cb: Callbacks, i: nat)
    requires Sound(w) && p in w.st.mem && i < SLOTS
    ensures var o := CloseInterface(w.st, p, cb);
            && WellFormed(o.st) && p !in o.st.mem && PhaseIn(o.st, p) == Out
            && o.st.mem == w.st.mem - {p}
            && o.st.slots[i] == (if w.st.slots[i].intf == p then w.st.slots[i].(intf := 0) else w.st.slots[i])
  {
    CloseKeeps(w, p, cb);
    UnregisterKeeps(w, p, cb);
    UnregisterSlots(w.st, p, cb, i);
  }

  /** Opening a block that is already registered is the one way to break the bus: the retry fails
      and the block is freed under the slot table, or it enters a second slot under a foreign
      serial number. For every other block opening keeps the invariant. */
  lemma OpenIsSafeExactlyOnce(w: World, p: Addr, serial: nat, cb: Callbacks)
    requires Sound(w) && p in w.st.mem
    ensures Inv(OpenInterface(w.st, p, serial, cb).st) <==> PhaseIn(w.st, p) == Out
  {
    if PhaseIn(w.st, p) == Out {
      OpenKeeps(w, p, serial, cb);
    } else {
      OwnSlot(w.st, p);
      var i := SlotOf(w.st.mem[p].serialNo).value;
      OpenEffect(w.st, p, serial, cb);
      var o := OpenInterface(w.st, p, serial, cb);
      if o.status == Success {
        assert o.st.slots[i].intf == p && o.st.mem[p].serialNo == serial;
        assert !Linked(o.st) || !WellFormed(o.st);
      } else {
        assert o.st.slots[i].intf == p && p !in o.st.mem;
      }
    }
  }

  /** It does break: a driver that opens its block again while registered loses the block and
      leaves the slot pointing to it. */
  lemma SecondOpenFreesHeldBlock(cb: Callbacks)
    requires cb.open(BT) == 0
    ensures var st := RunFrom(Start(), OneDevice(BT, cb)).st;
            && 1 in st.mem
            && var o := OpenInterface(st, 1, BT, cb); o.st.slots[0].intf == 1 && 1 !in o.st.mem
  {
    OneDeviceUp(0, cb);
  }
}
