/** `gz::plugin::Factory`: what happens to the factory reference of a product. */
module Factories {
  import opened Common
  import opened Runtime
  import opened Plugins
  import opened Lifetime
  import opened Wrappers

  /** The static variable of Factory.cc; `lostProducts` lists the products the references came from. */
  class LostProductManager {
    const machine: Machine
    var lostProducts: seq<nat>

    constructor (machine: Machine)
      ensures this.machine == machine && lostProducts == []
    {
      this.machine := machine;
      lostProducts := [];
    }

    /** The body of the destructor of FactoryCounter. */
    method CounterDestroyed(product: nat)
      modifies this, machine
      ensures machine.heap == CopySlot(old(machine.heap), Lost(product), Product(product))
      ensures lostProducts == if Held(old(machine.heap), Product(product)) then old(lostProducts) + [product] else old(lostProducts)
    {
      if Held(machine.heap, Product(product)) {
        machine.heap := Share(machine.heap, Lost(product), machine.heap.slots[Product(product)]);
        lostProducts := lostProducts + [product];
      }
    }

    method CleanupLostProducts()
      modifies this, machine
      ensures machine.heap == DropLost(old(machine.heap), old(lostProducts)) && lostProducts == []
    {
      while lostProducts != []
        invariant DropLost(machine.heap, lostProducts) == DropLost(old(machine.heap), old(lostProducts))
        decreases |lostProducts|
      {
        machine.heap := DropInstance(machine.heap, Lost(lostProducts[0]));
        lostProducts := lostProducts[1..];
      }
    }

    /** `ProductDeleter`: the reference is swapped to a local variable, so that the destructor of
        FactoryCounter finds none, and goes when the product is gone. */
    method Delete(product: nat, code: Code)
      requires WellFormed(machine.heap) && LocalInstance !in machine.heap.slots
      requires Held(machine.heap, Product(product))
      modifies this, machine
      ensures machine.heap == DeletedHeap(old(machine.heap), product, code) && lostProducts == old(lostProducts)
    {
      hide WellFormed, Evolves, NoNewLibs, Changes;
      ghost var h := machine.heap;
      KindAt(h, Product(product));
      CopySlotFrame(h, LocalInstance, Product(product));
      KindAt(CopySlot(h, LocalInstance, Product(product)), Product(product));
      DropInstanceFrame(CopySlot(h, LocalInstance, Product(product)), Product(product));
      machine.heap := Share(machine.heap, LocalInstance, machine.heap.slots[Product(product)]);
      machine.heap := DropInstance(machine.heap, Product(product));
      machine.heap := Touch(machine.heap, code);
      ghost var touched := machine.heap;
      CounterDestroyed(product);
      assert machine.heap == touched;
      machine.heap := DropInstance(machine.heap, LocalInstance);
    }
  }
}
