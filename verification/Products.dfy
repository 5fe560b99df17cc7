/** Products of a factory: each keeps the factory alive, and with it the library of the product. */
module Products {
  import opened Common
  import opened Runtime
  import opened Plugins
  import opened Lifetime

  lemma OtherProducts(h: Heap, h': Heap, changed: set<Slot>, p: nat, products: map<nat, Made>, products': map<nat, Made>, lost: seq<nat>, lost': seq<nat>)
    requires WellFormed(h) && Frame(h, h', changed) && ProductsOk(h, products, lost)
    requires products'.Keys - {p} == products.Keys - {p} && (forall q | q in products && q in products' && q != p :: products'[q] == products[q])
    requires forall sl | sl in changed && ForProducts(sl) :: sl.product == p
    requires forall q | q != p :: q in lost' <==> q in lost
    ensures forall q | q != p :: ProductOk(h', q, products') && LostOk(h', q, products', lost')
  {
    hide WellFormed, Evolves, NoNewLibs;
    forall q | q != p
      ensures ProductOk(h', q, products') && LostOk(h', q, products', lost')
    {
      assert ProductOk(h, q, products) && LostOk(h, q, products, lost);
      assert (q in products' <==> q in products'.Keys - {p}) && (q in products <==> q in products.Keys - {p});
      StayingSlot(h, h', changed, Product(q));
      StayingSlot(h, h', changed, Lost(q));
    }
  }

  /** Steps that only touch one product. */
  lemma BaseProduct(s: System, h': Heap, changed: set<Slot>, p: nat, m: Made, lost': seq<nat>)
    requires Base(s) && Frame(s.heap, h', changed)
    requires forall sl | sl in changed :: ForProducts(sl) && sl.product == p
    requires forall q | q != p :: q in lost' <==> q in s.lost
    requires forall i, j | 0 <= i < j < |lost'| :: lost'[i] != lost'[j]
    requires ProductOk(h', p, s.products[p := m]) && LostOk(h', p, s.products[p := m], lost')
    ensures Base(s.(heap := h', products := s.products[p := m], lost := lost'))
  {
    hide WellFormed, Evolves, NoNewLibs, LoadersBase, WrappersAgree, WeaksOk, WrapperAgrees, ProductOk, LostOk;
    LoadersFrame(s.heap, h', changed, s.loaders, s.nextLoader);
    WrappersFrame(s.heap, h', changed);
    WeaksFrame(s.heap, h', s.weaks);
    OtherProducts(s.heap, h', changed, p, s.products, s.products[p := m], s.lost, lost');
    StayingSlot(s.heap, h', changed, LocalLib);
    StayingSlot(s.heap, h', changed, LocalInstance);
  }

  lemma ProductAt(s: System, p: nat)
    requires Base(s)
    ensures ProductOk(s.heap, p, s.products) && LostOk(s.heap, p, s.products, s.lost)
    ensures KindOk(s.heap, Product(p)) && KindOk(s.heap, Lost(p))
  {
    hide WellFormed, LoadersBase, WrappersAgree, WeaksOk, ProductOk, LostOk;
    KindAt(s.heap, Product(p));
    KindAt(s.heap, Lost(p));
  }

  ghost predicate DistinctLost(lost: seq<nat>) {
    forall i, j | 0 <= i < j < |lost| :: lost[i] != lost[j]
  }

  lemma LostDistinct(s: System)
    requires Base(s)
    ensures DistinctLost(s.lost)
  {
    hide WellFormed, LoadersBase, WrappersAgree, WeaksOk;
  }

  predicate KindOk(h: Heap, slot: Slot) {
    slot in h.slots ==> Held(h, slot) && RightKind(slot, PayloadAt(h, slot))
  }

  lemma BaseConstruct(s: System, slot: Slot, p: nat)
    requires Base(s) && slot in s.heap.slots && (slot.WrapperInstance? || slot.Interface?) && p !in s.products
    ensures Base(Constructed(s, slot, p)) && (Tied(s.heap) ==> Constructed(s, slot, p).heap.fault == s.heap.fault)
  {
    hide Tied, WellFormed, Evolves, NoNewLibs, LoadersBase, WrappersAgree, WeaksOk, ProductsOk, WrapperAgrees;
    var h := s.heap;
    KindAt(h, slot);
    ProductAt(s, p);
    var id := h.slots[slot];
    var code := PayloadAt(h, slot).code;
    if FromThis(id) in s.weaks {
      if Tied(h) {
        InstanceLoaded(h, id);
      }
      TouchFrame(h, code);
      var h1 := Touch(h, code);
      ShareFrame(h1, Product(p), id);
      var h2 := Share(h1, Product(p), id);
      FrameTransitive(h, h1, h2, {}, {Product(p)});
      assert {} + {Product(p)} == {Product(p)};
      KindAt(h2, Product(p));
      SamePayload(h, h2, id);
      var m := Made(Alive, code, id);
      assert SameAt(h, h2, Lost(p));
      LostDistinct(s);
      hide Changes, Share;
      assert ProductOk(h2, p, s.products[p := m]);
      assert LostOk(h2, p, s.products[p := m], s.lost);
      BaseProduct(s, h2, {Product(p)}, p, m, s.lost);
    }
  }

  lemma DeletedFrame(h: Heap, p: nat, code: Code)
    requires WellFormed(h) && LocalInstance !in h.slots && Product(p) in h.slots
    requires KindOk(h, Product(p)) && PayloadAt(h, Product(p)).code == code
    ensures var h' := DeletedHeap(h, p, code);
            Frame(h, h', {Product(p)}) && (Tied(h) ==> h'.fault == h.fault) && Product(p) !in h'.slots
  {
    hide WellFormed, Evolves, NoNewLibs, Changes, Tied, Loaded;
    var a, b := Product(p), LocalInstance;
    CopySlotFrame(h, b, a);
    var h1 := CopySlot(h, b, a);
    hide CopySlot;
    KindAt(h1, a);
    DropInstanceFrame(h1, a);
    var h2 := DropInstance(h1, a);
    StayingSlot(h1, h2, {a}, b);
    KindAt(h1, b);
    SamePayload(h, h1, h.slots[a]);
    if Tied(h) {
      TiedFrame(h, h1, {b});
      DropsRunLoaded(h1, a);
      TiedFrame(h1, h2, {a});
      InstanceLoaded(h2, h2.slots[b]);
    }
    TouchFrame(h2, code);
    var h3 := Touch(h2, code);
    KindAt(h3, b);
    DropInstanceFrame(h3, b);
    var h4 := DropInstance(h3, b);
    if Tied(h) {
      TiedFrame(h2, h3, {});
      DropsRunLoaded(h3, b);
    }
    assert h4 == DeletedHeap(h, p, code);
    hide DropInstance, Touch;
    FrameTransitive(h, h1, h2, {b}, {a});
    FrameTransitive(h, h2, h3, {b} + {a}, {});
    FrameTransitive(h, h3, h4, {b} + {a} + {}, {b});
    Untouched(h2, h3, {}, a);
    Untouched(h3, h4, {b}, a);
    assert {b} + {a} + {} + {b} == {a} + {b};
    FrameLess(h, h4, {a}, b);
  }

  /** A slot that is empty before and after was not changed. */
  lemma FrameLess(h: Heap, h': Heap, changed: set<Slot>, slot: Slot)
    requires Frame(h, h', changed + {slot}) && !slot.InstanceLib? && slot !in h.slots && slot !in h'.slots
    ensures Frame(h, h', changed)
  {
    hide WellFormed, Evolves, NoNewLibs;
    forall sl: Slot
      ensures sl in changed || StaysAt(h, h', sl)
    {
      assert sl in changed + {slot} || StaysAt(h, h', sl);
    }
  }

  lemma BaseDelete(s: System, p: nat)
    requires Base(s) && p in s.products && s.products[p].phase == Alive
    ensures Base(s.(heap := DeletedHeap(s.heap, p, s.products[p].code), products := SetPhase(s, p, Deleted)))
    ensures Tied(s.heap) ==> DeletedHeap(s.heap, p, s.products[p].code).fault == s.heap.fault
  {
    hide Tied, WellFormed, Evolves, NoNewLibs, LoadersBase, WrappersAgree, WeaksOk, ProductsOk, WrapperAgrees;
    ProductAt(s, p);
    DeletedFrame(s.heap, p, s.products[p].code);
    var h' := DeletedHeap(s.heap, p, s.products[p].code);
    hide DeletedHeap;
    var m := s.products[p].(phase := Deleted);
    assert LostOk(s.heap, p, s.products, s.lost);
    StayingSlot(s.heap, h', {Product(p)}, Lost(p));
    hide Changes;
    assert s.lost == s.lost && DistinctLost(s.lost) by { LostDistinct(s); }
    BaseProduct(s, h', {Product(p)}, p, m, s.lost);
    assert s.products[p := m] == SetPhase(s, p, Deleted);
  }

  lemma BaseBegin(s: System, p: nat)
    requires Base(s) && p in s.products && s.products[p].phase == Alive
    ensures var h' := CopySlot(Touch(s.heap, s.products[p].code), Lost(p), Product(p));
            && Base(s.(heap := h', products := SetPhase(s, p, Pushed), lost := s.lost + [p]))
            && (Tied(s.heap) ==> h'.fault == s.heap.fault)
            && Lost(p) in h'.slots
  {
    hide Tied, WellFormed, Evolves, NoNewLibs, LoadersBase, WrappersAgree, WeaksOk, ProductsOk, WrapperAgrees;
    var h := s.heap;
    ProductAt(s, p);
    var a, b := Product(p), Lost(p);
    var code := s.products[p].code;
    if Tied(h) {
      InstanceLoaded(h, h.slots[a]);
    }
    TouchFrame(h, code);
    var h1 := Touch(h, code);
    CopySlotFrame(h1, b, a);
    var h2 := CopySlot(h1, b, a);
    hide Touch, CopySlot;
    FrameTransitive(h, h1, h2, {}, {b});
    assert {} + {b} == {b};
    StayingSlot(h, h1, {}, a);
    StayingSlot(h, h2, {b}, a);
    KindAt(h2, b);
    var m := s.products[p].(phase := Pushed);
    hide Changes;
    LostDistinct(s);
    BaseProduct(s, h2, {b}, p, m, s.lost + [p]);
    assert s.products[p := m] == SetPhase(s, p, Pushed);
  }

  lemma BaseRelease(s: System, p: nat)
    requires Base(s) && p in s.products && s.products[p].phase == Pushed
    ensures Base(s.(heap := DropInstance(s.heap, Product(p)), products := SetPhase(s, p, Released)))
    ensures Tied(s.heap) ==> DropInstance(s.heap, Product(p)).fault == s.heap.fault
    ensures SameAt(s.heap, DropInstance(s.heap, Product(p)), Lost(p))
  {
    hide WellFormed, Evolves, NoNewLibs, LoadersBase, WrappersAgree, WeaksOk, ProductsOk, WrapperAgrees;
    ProductAt(s, p);
    DropInstanceFrame(s.heap, Product(p));
    if Tied(s.heap) {
      DropsRunLoaded(s.heap, Product(p));
    }
    var h' := DropInstance(s.heap, Product(p));
    hide DropInstance, Tied;
    var m := s.products[p].(phase := Released);
    StayingSlot(s.heap, h', {Product(p)}, Lost(p));
    hide Changes;
    LostDistinct(s);
    BaseProduct(s, h', {Product(p)}, p, m, s.lost);
    assert s.products[p := m] == SetPhase(s, p, Released);
  }

  lemma BaseLeave(s: System, p: nat)
    requires Base(s) && p in s.products && s.products[p].phase == Released
    ensures Base(s.(heap := Touch(s.heap, s.products[p].code), products := SetPhase(s, p, Deleted)))
    ensures Tied(s.heap) && Lost(p) in s.heap.slots ==> Touch(s.heap, s.products[p].code).fault == s.heap.fault
  {
    hide Tied, WellFormed, Evolves, NoNewLibs, LoadersBase, WrappersAgree, WeaksOk, ProductsOk, WrapperAgrees;
    ProductAt(s, p);
    TouchFrame(s.heap, s.products[p].code);
    if Tied(s.heap) && Lost(p) in s.heap.slots {
      InstanceLoaded(s.heap, s.heap.slots[Lost(p)]);
    }
    var h' := Touch(s.heap, s.products[p].code);
    hide Touch;
    var m := s.products[p].(phase := Deleted);
    StayingSlot(s.heap, h', {}, Lost(p));
    StayingSlot(s.heap, h', {}, Product(p));
    hide Changes;
    LostDistinct(s);
    BaseProduct(s, h', {}, p, m, s.lost);
    assert s.products[p := m] == SetPhase(s, p, Deleted);
  }

  function LostSlots(lost: seq<nat>): set<Slot> {
    set p | p in lost :: Lost(p)
  }

  lemma {:induction false} DropLostFrame(h: Heap, lost: seq<nat>)
    requires WellFormed(h)
    ensures Frame(h, DropLost(h, lost), LostSlots(lost)) && (Tied(h) ==> DropLost(h, lost).fault == h.fault)
    ensures forall p | p in lost :: Lost(p) !in DropLost(h, lost).slots
    decreases |lost|
  {
    hide WellFormed, Evolves, NoNewLibs, Changes, Tied;
    if lost == [] {
      FrameRefl(h);
      assert LostSlots(lost) == {};
    } else {
      var h1 := DropInstance(h, Lost(lost[0]));
      KindAt(h, Lost(lost[0]));
      DropInstanceFrame(h, Lost(lost[0]));
      if Tied(h) {
        DropsRunLoaded(h, Lost(lost[0]));
        TiedFrame(h, h1, {Lost(lost[0])});
      }
      hide DropInstance;
      DropLostFrame(h1, lost[1..]);
      var h2 := DropLost(h1, lost[1..]);
      FrameTransitive(h, h1, h2, {Lost(lost[0])}, LostSlots(lost[1..]));
      assert forall p :: p in lost <==> p == lost[0] || p in lost[1..];
      assert LostSlots(lost) == {Lost(lost[0])} + LostSlots(lost[1..]);
      if lost[0] !in lost[1..] {
        Untouched(h1, h2, LostSlots(lost[1..]), Lost(lost[0]));
      }
    }
  }

  lemma BaseCleanup(s: System)
    requires Base(s)
    ensures Base(s.(heap := DropLost(s.heap, s.lost), lost := []))
    ensures Tied(s.heap) ==> DropLost(s.heap, s.lost).fault == s.heap.fault
  {
    hide Tied, WellFormed, Evolves, NoNewLibs, LoadersBase, WrappersAgree, WeaksOk, WrapperAgrees;
    var h := s.heap;
    DropLostFrame(h, s.lost);
    var h' := DropLost(h, s.lost);
    hide DropLost;
    var changed := LostSlots(s.lost);
    LoadersFrame(h, h', changed, s.loaders, s.nextLoader);
    WrappersFrame(h, h', changed);
    WeaksFrame(h, h', s.weaks);
    StayingSlot(h, h', changed, LocalLib);
    StayingSlot(h, h', changed, LocalInstance);
    forall p
      ensures ProductOk(h', p, s.products) && LostOk(h', p, s.products, [])
    {
      assert ProductOk(h, p, s.products) && LostOk(h, p, s.products, s.lost);
      StayingSlot(h, h', changed, Product(p));
      if p !in s.lost {
        StayingSlot(h, h', changed, Lost(p));
      }
    }
  }
}
