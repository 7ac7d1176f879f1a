/** The search for the next valid boot image in flash. */
module BootSearch {
  import opened CTypes

  const STEP := 0x8000               // GOLDEN_IMAGE_OFFSET
  const SLOTS := 0x2000              // PCAP_MBOOT_REG_REBOOT_OFFSET_MASK + 1
  const IDENT: u32 := 0x584C_4E58    // "XLNX"

  /** The boot device: the word at each byte address, and its size. */
  datatype Flash = Flash(word: nat -> u32, size: nat)
  {
    /** The first n of the words under the header checksum, added up. */
    function HeaderSum(base: nat, n: nat): nat {
      if n == 0 then 0 else HeaderSum(base, n - 1) + word(base + 0x20 + 4 * (n - 1))
    }

    /** An image starts here: its mark, and eleven words that add up to all ones. */
    predicate ImageAt(base: nat) {
      word(base + 0x24) == IDENT && (HeaderSum(base, 10) + word(base + 0x48)) % TWO32 == ALL_ONES
    }

    predicate ImageIn(slot: nat) { ImageAt(slot * STEP) }

    predicate Inside(slot: nat) { slot * STEP < size }

    /** The mask of the multiboot register can reach past the end of the flash. */
    predicate EndReachable() { size <= (SLOTS - 1) * STEP }

    predicate HasImage() { exists k :: 0 <= k < SLOTS && ImageIn(k) }

    /** The least slot from s on that holds an image. */
    function Next(s: nat): (r: Result<nat>)
      ensures r.Ok? ==>
                s <= r.value && Inside(r.value) && ImageIn(r.value) && forall k :: s <= k < r.value ==> !ImageIn(k)
      ensures r.Err? ==> forall k :: s <= k && Inside(k) ==> !ImageIn(k)
      decreases size - s * STEP
    {
      if !Inside(s) then Err else if ImageIn(s) then Ok(s) else Next(s + 1)
    }
  }

  /** The image slot a multiboot register stands for. */
  function Slot(reg: nat): (s: nat)
    ensures s < SLOTS
  {
    reg % SLOTS
  }

  method HeaderChecksum(f: Flash, base: nat) returns (ok: bool)
    ensures ok <==> (f.HeaderSum(base, 10) + f.word(base + 0x48)) % TWO32 == ALL_ONES
  {
    var checksum: u32 := 0;
    for count := 0 to 10
      invariant checksum == f.HeaderSum(base, count) % TWO32
    {
      var tempValue := f.word(base + 0x20 + count * 4);
      ChecksumLaw(f.HeaderSum(base, count), tempValue);
      checksum := Wrap32(checksum as int + tempValue as int);
    }
    ChecksumLaw(f.HeaderSum(base, 10), f.word(base + 0x48));
    hide Flash.HeaderSum, Wrap32;
    checksum := ALL_ONES - checksum;
    ok := f.word(base + 0x48) == checksum;
  }

  method ImageCheckID(f: Flash, base: nat) returns (ok: bool)
    ensures ok <==> f.word(base + 0x24) == IDENT
  {
    ok := f.word(base + 0x24) == IDENT;
  }

  /** The slot m steps on is inside the flash and holds no image. */
  predicate Empty(f: Flash, reg: nat, m: nat) { f.Inside(Slot(reg + m)) && !f.ImageIn(Slot(reg + m)) }

  predicate Passed(f: Flash, reg: nat, n: nat) { forall m :: 0 <= m < n ==> Empty(f, reg, m) }

  /** NextValidImageCheck. Its loop ends exactly when the end of the flash can be
      reached or there is an image to be found. */
  method NextValidImageCheck(f: Flash, reg0: u32) returns (ok: bool, reg: u32)
    requires f.EndReachable() || f.HasImage()
    ensures ok ==> f.Inside(Slot(reg)) && f.ImageIn(Slot(reg))
    ensures ok ==> exists n: nat :: reg == Wrap32(reg0 + n) && Passed(f, reg0, n)
    ensures !ok ==> reg == reg0
    ensures f.EndReachable() ==> ok == f.Next(Slot(reg0)).Ok? && (ok ==> Slot(reg) == f.Next(Slot(reg0)).value)
  {
    hide Flash.HasImage, Flash.EndReachable, Passed, Slot, Wrap32;
    SlotOfWrapped(reg0);
    NothingPassed(f, reg0);
    reg := reg0;
    ghost var n := 0;
    var base := Slot(reg) * STEP;
    while base < f.size
      invariant base == Slot(reg) * STEP && reg == Wrap32(reg0 + n) && Slot(reg) == Slot(reg0 + n)
      invariant n <= SLOTS && Passed(f, reg0, n)
      decreases SLOTS - n
    {
      assert n < SLOTS by {
        if n == SLOTS {
          AllSlots(f, reg0);
        }
      }
      var marked := ImageCheckID(f, base);
      if marked {
        var sound := HeaderChecksum(f, base);
        if sound {
          assert f.Inside(Slot(reg0 + n)) && f.ImageIn(Slot(reg0 + n));
          if f.EndReachable() {
            FoundIsNext(f, reg0, n);
          }
          return true, reg;
        }
      }
      assert Empty(f, reg0, n);
      OneMorePassed(f, reg0, n);
      WrappedNext(reg0, n);
      reg := Wrap32(reg as int + 1);
      n := n + 1;
      SlotOfWrapped(reg0 + n);
      base := Slot(reg) * STEP;
    }
    if f.EndReachable() {
      EndIsNext(f, reg0, n);
    }
    return false, reg0;
  }

  lemma SlotOfWrapped(x: nat)
    ensures Slot(Wrap32(x)) == Slot(x)
  {
  }

  lemma WrappedNext(x: nat, n: nat)
    ensures Wrap32(Wrap32(x + n) + 1) == Wrap32(x + n + 1)
  {
  }

  lemma NothingPassed(f: Flash, reg: u32)
    ensures Passed(f, reg, 0) && Wrap32(reg + 0) == reg
  {
  }

  lemma OneMorePassed(f: Flash, reg: nat, n: nat)
    requires Passed(f, reg, n) && Empty(f, reg, n)
    ensures Passed(f, reg, n + 1)
  {
  }

  /** After as many steps as there are slots, each slot has been seen. */
  lemma AllSlots(f: Flash, reg: nat)
    requires Passed(f, reg, SLOTS)
    ensures !f.EndReachable() && !f.HasImage()
  {
    forall k | 0 <= k < SLOTS ensures f.Inside(k) && !f.ImageIn(k) {
      var m := (k - reg) % SLOTS;
      assert Slot(reg + m) == k;
      assert Empty(f, reg, m);
    }
    assert f.Inside(SLOTS - 1);
  }

  /** As long as the end of the flash is within reach, the slots do not wrap. */
  lemma {:induction false} NoWrapAround(f: Flash, reg: nat, n: nat)
    requires f.EndReachable() && Passed(f, reg, n)
    ensures Slot(reg + n) == Slot(reg) + n
  {
    if n > 0 {
      NoWrapAround(f, reg, n - 1);
      assert Empty(f, reg, n - 1);
    }
  }

  lemma PassedSlots(f: Flash, reg: nat, n: nat)
    requires f.EndReachable() && Passed(f, reg, n)
    ensures forall k :: Slot(reg) <= k < Slot(reg) + n ==> !f.ImageIn(k)
  {
    forall k | Slot(reg) <= k < Slot(reg) + n ensures !f.ImageIn(k) {
      NoWrapAround(f, reg, k - Slot(reg));
      assert Empty(f, reg, k - Slot(reg));
    }
  }

  lemma FoundIsNext(f: Flash, reg: nat, n: nat)
    requires f.EndReachable() && Passed(f, reg, n) && f.Inside(Slot(reg + n)) && f.ImageIn(Slot(reg + n))
    ensures f.Next(Slot(reg)) == Ok(Slot(reg + n))
  {
    NoWrapAround(f, reg, n);
    PassedSlots(f, reg, n);
  }

  lemma EndIsNext(f: Flash, reg: nat, n: nat)
    requires f.EndReachable() && Passed(f, reg, n) && !f.Inside(Slot(reg + n))
    ensures f.Next(Slot(reg)).Err?
  {
    NoWrapAround(f, reg, n);
    PassedSlots(f, reg, n);
  }

  // ---- when the search does not end ----

  datatype Search = Looking(reg: u32) | Found(reg: u32) | GaveUp

  /** One turn of the search loop. */
  function Turn(f: Flash, reg: u32): Search {
    if !f.Inside(Slot(reg)) then GaveUp else if f.ImageIn(Slot(reg)) then Found(reg) else Looking(Wrap32(reg + 1))
  }

  function After(f: Flash, reg: u32, n: nat): Search {
    if n == 0 then Looking(reg) else var s := After(f, reg, n - 1); if s.Looking? then Turn(f, s.reg) else s
  }

  predicate EndsWithin(f: Flash, reg: u32, n: nat) { !After(f, reg, n).Looking? }

  /** The search goes on for ever if and only if the register cannot reach the end
      of the flash and no slot holds an image. */
  lemma SearchEnds(f: Flash, reg: u32)
    ensures (exists n :: EndsWithin(f, reg, n)) <==> f.EndReachable() || f.HasImage()
  {
    hide Flash.HasImage, Flash.EndReachable, After;
    if f.EndReachable() || f.HasImage() {
      if !(exists n :: EndsWithin(f, reg, n)) {
        StillLooking(f, reg, SLOTS);
        AllSlots(f, reg);
      }
    } else {
      forall n ensures !EndsWithin(f, reg, n) {
        NeverEnds(f, reg, n);
      }
    }
  }

  lemma {:induction false} StillLooking(f: Flash, reg: u32, n: nat)
    requires forall m :: !EndsWithin(f, reg, m)
    ensures After(f, reg, n) == Looking(Wrap32(reg + n)) && Passed(f, reg, n)
  {
    if n > 0 {
      hide Slot, Wrap32;
      StillLooking(f, reg, n - 1);
      SlotOfWrapped(reg + (n - 1));
      WrappedNext(reg, n - 1);
      assert !EndsWithin(f, reg, n);
      assert Empty(f, reg, n - 1);
    } else {
      NothingPassed(f, reg);
    }
  }

  lemma {:induction false} NeverEnds(f: Flash, reg: u32, n: nat)
    requires !f.EndReachable() && !f.HasImage()
    ensures After(f, reg, n).Looking?
  {
    if n > 0 {
      NeverEnds(f, reg, n - 1);
    }
  }
}

/** What the boot loader does when an image fails: FsblFallback, LoadBootImage and
    FsblHandoff call one another until an image runs or none is left. */
module Fallback {
  import opened CTypes
  import opened BootSearch

  /** How an attempt to boot an image goes. */
  datatype Verdict = LoadFails | HandoffFails | HandoffReturns | Runs

  /** Nothing of this returns: an application runs, the loader waits in its hook for
      ever, or the processor is reset. */
  datatype End = Application(slot: nat) | Parked | Reset

  /** The hunt through the images: the valid ones from slot s on, one after the other. */
  function Hunt(f: Flash, verdicts: nat -> Verdict, s: nat, k: nat): (r: (End, seq<nat>))
    ensures !r.0.Reset?
    decreases f.size - s * STEP
  {
    var next := f.Next(s);
    if next.Err? then (Parked, [])
    else if verdicts(k).Runs? then (Application(next.value), [next.value])
    else
      var rest := Hunt(f, verdicts, next.value + 1, k + 1);
      (rest.0, [next.value] + rest.1)
  }

  predicate Images(f: Flash, from: nat, s: seq<nat>) { forall t :: t in s ==> from <= t && f.Inside(t) && f.ImageIn(t) }

  /** A run that ends as foretold, with the slots it tried behind those of before. */
  predicate EndsAs(end: End, tried: seq<nat>, before: seq<nat>, r: (End, seq<nat>)) {
    end == r.0 && tried == before + r.1
  }

  /** The hunt from a slot without an image starts at the next one with one. */
  lemma HuntFrom(f: Flash, verdicts: nat -> Verdict, s: nat, k: nat)
    ensures f.Next(s).Ok? ==> Hunt(f, verdicts, s, k) == Hunt(f, verdicts, f.Next(s).value, k)
    ensures f.Next(s).Err? ==> Hunt(f, verdicts, s, k) == (Parked, [])
  {
    if f.Next(s).Ok? {
      assert f.Next(f.Next(s).value) == f.Next(s);
    }
  }

  /** At an image it either ends, or goes on behind it. */
  lemma HuntAt(f: Flash, verdicts: nat -> Verdict, t: nat, k: nat)
    requires f.Inside(t) && f.ImageIn(t)
    ensures verdicts(k).Runs? ==> Hunt(f, verdicts, t, k) == (Application(t), [t])
    ensures !verdicts(k).Runs? ==>
              var rest := Hunt(f, verdicts, t + 1, k + 1); Hunt(f, verdicts, t, k) == (rest.0, [t] + rest.1)
  {
  }

  /** Behind a slot inside the flash there is another one. */
  lemma SlotStep(f: Flash, reg: nat)
    requires f.EndReachable() && f.Inside(Slot(reg))
    ensures Slot(reg + 1) == Slot(reg) + 1
  {
  }

  lemma OneMoreTried(end: End, tried: seq<nat>, before: seq<nat>, t: nat, r: (End, seq<nat>))
    requires EndsAs(end, tried, before + [t], r)
    ensures EndsAs(end, tried, before, (r.0, [t] + r.1))
  {
  }

  /** Only valid images inside the flash are tried, in strictly increasing order: no
      image twice. */
  lemma {:induction false} HuntIsOrdered(f: Flash, verdicts: nat -> Verdict, s: nat, k: nat)
    ensures Ascending(Hunt(f, verdicts, s, k).1) && Images(f, s, Hunt(f, verdicts, s, k).1)
    decreases f.size - s * STEP
  {
    hide Ascending, Flash.Next, Flash.ImageIn, Flash.Inside;
    var next := f.Next(s);
    AscendingOne(if next.Ok? then next.value else 0);
    if next.Ok? {
      HuntStarts(f, verdicts, s, k);
      HuntIsOrdered(f, verdicts, next.value + 1, k + 1);
      AscendingBehind(next.value, Hunt(f, verdicts, next.value + 1, k + 1).1);
    }
  }

  lemma HuntStarts(f: Flash, verdicts: nat -> Verdict, s: nat, k: nat)
    requires f.Next(s).Ok?
    ensures var t := f.Next(s).value;
            && s <= t && f.size - (t + 1) * STEP < f.size - s * STEP && f.size - s * STEP > 0
            && (verdicts(k).Runs? ==> Hunt(f, verdicts, s, k) == (Application(t), [t]))
            && (!verdicts(k).Runs? ==> var rest := Hunt(f, verdicts, t + 1, k + 1);
                                       Hunt(f, verdicts, s, k) == (rest.0, [t] + rest.1))
  {
  }

  /** None is left out: the hunt parks only after every valid image from its start on
      has been tried. */
  lemma {:induction false} HuntTriesAll(f: Flash, verdicts: nat -> Verdict, s: nat, k: nat, t: nat)
    requires s <= t && f.Inside(t) && f.ImageIn(t)
    ensures var (end, tried) := Hunt(f, verdicts, s, k);
            end.Parked? || (end.Application? && t <= end.slot) ==> t in tried
    decreases f.size - s * STEP
  {
    var next := f.Next(s);
    assert next.Ok? && next.value <= t;
    HuntStarts(f, verdicts, s, k);
    hide Flash.Next, Flash.ImageIn, Flash.Inside, Hunt;
    if !verdicts(k).Runs? {
      var n := next.value + 1;
      if n <= t {
        HuntTriesAll(f, verdicts, n, k + 1, t);
      }
    }
  }

  /** A running application is the last image tried. */
  lemma {:induction false} HuntEnds(f: Flash, verdicts: nat -> Verdict, s: nat, k: nat)
    ensures var (end, tried) := Hunt(f, verdicts, s, k);
            end.Application? ==> end.slot in tried && s <= end.slot && forall e :: e in tried ==> e <= end.slot
    decreases f.size - s * STEP
  {
    if f.Next(s).Ok? {
      HuntStarts(f, verdicts, s, k);
      hide Flash.Next, Flash.ImageIn, Flash.Inside, Hunt;
      HuntEnds(f, verdicts, f.Next(s).value + 1, k + 1);
    }
  }

  /** It runs the first image that can run: every attempt before the last one went
      wrong, and the last one decides how the hunt ends. */
  lemma {:induction false} HuntOutcome(f: Flash, verdicts: nat -> Verdict, s: nat, k: nat)
    ensures var (end, tried) := Hunt(f, verdicts, s, k);
            && (forall i :: k <= i < k + |tried| - 1 ==> !verdicts(i).Runs?)
            && (tried != [] && verdicts(k + |tried| - 1).Runs? ==> end == Application(tried[|tried| - 1]))
            && (tried == [] || !verdicts(k + |tried| - 1).Runs? ==> end == Parked)
    decreases f.size - s * STEP
  {
    if f.Next(s).Ok? {
      HuntStarts(f, verdicts, s, k);
      hide Flash.Next, Flash.ImageIn, Flash.Inside, Hunt;
      if !verdicts(k).Runs? {
        HuntOutcome(f, verdicts, f.Next(s).value + 1, k + 1);
      }
    }
  }

  /** So a hunt makes fewer attempts than there are slots. */
  lemma HuntIsShort(f: Flash, verdicts: nat -> Verdict, s: nat, k: nat)
    requires f.EndReachable()
    ensures |Hunt(f, verdicts, s, k).1| < SLOTS
  {
    var tried := Hunt(f, verdicts, s, k).1;
    HuntIsOrdered(f, verdicts, s, k);
    AscendingIsShort(tried, SLOTS - 1);
  }

  class Boot {
    const flash: Flash
    const verdicts: nat -> Verdict
    const supportsFallback: bool     // QSPI, NAND or NOR boot mode
    const efuseKey: bool
    const systemInitialised: bool
    var multiboot: u32
    var failMark: bool
    // the slots LoadBootImage has been called on
    var tried: seq<nat>

    constructor (flash: Flash, verdicts: nat -> Verdict, supportsFallback: bool, efuseKey: bool,
                 systemInitialised: bool, multiboot: u32)
      ensures this.flash == flash && this.verdicts == verdicts && this.multiboot == multiboot && tried == []
      ensures this.supportsFallback == supportsFallback && this.efuseKey == efuseKey
      ensures this.systemInitialised == systemInitialised
    {
      this.flash, this.verdicts, this.multiboot, tried, failMark := flash, verdicts, multiboot, [], false;
      this.supportsFallback, this.efuseKey, this.systemInitialised := supportsFallback, efuseKey, systemInitialised;
    }

    predicate Hunts() { supportsFallback && efuseKey && systemInitialised }

    /** What the fallback path leads to. */
    function Expected(reg: nat, k: nat): (End, seq<nat>) {
      if !supportsFallback then (Parked, [])
      else if !efuseKey then (Reset, [])
      else if !systemInitialised then (Parked, [])
      else Hunt(flash, verdicts, Slot(reg + 1), k)
    }

    method FsblFallback() returns (end: End)
      requires flash.EndReachable()
      modifies this
      ensures EndsAs(end, tried, old(tried), Expected(old(multiboot), |old(tried)|))
      ensures failMark == end.Reset? == (supportsFallback && !efuseKey)
      ensures end.Application? ==> supportsFallback && efuseKey && systemInitialised
      ensures end.Reset? ==> multiboot == Wrap32(old(multiboot) + 1)
      decreases SLOTS - Slot(multiboot + 1), 1
    {
      hide Hunt, Slot, Flash.ImageIn, Flash.Inside, Flash.EndReachable, Flash.HasImage, Flash.Next, Wrap32;
      hide BootSearch.Passed;
      ghost var before := tried;
      if !supportsFallback {
        failMark := false;
        return Parked;
      }
      // Update_MultiBootRegister
      SlotOfWrapped(multiboot + 1);
      multiboot := Wrap32(multiboot as int + 1);
      failMark := true;
      if efuseKey {
        if !systemInitialised {
          failMark := false;
          return Parked;
        }
        HuntFrom(flash, verdicts, Slot(multiboot), |tried|);
        var found, reg := NextValidImageCheck(flash, multiboot);
        if !found {
          failMark := false;
          return Parked;
        }
        multiboot := reg;
        var loaded := LoadBootImage();
        if loaded.FellBack? {
          return loaded.end;
        }
        HuntAt(flash, verdicts, Slot(multiboot), |before|);
        end := FsblHandoff();
        if !verdicts(|before|).Runs? {
          OneMoreTried(end, tried, before, Slot(reg), Hunt(flash, verdicts, Slot(reg) + 1, |before| + 1));
        }
        return;
      }
      end := Reset;
    }

    /** LoadBootImage: it returns, or it has fallen back. */
    method LoadBootImage() returns (r: Loading)
      requires flash.EndReachable() && flash.Inside(Slot(multiboot)) && flash.ImageIn(Slot(multiboot)) && Hunts()
      modifies this
      ensures var k := |old(tried)|;
              if verdicts(k).LoadFails? then
                && r.FellBack? && failMark == r.end.Reset?
                && EndsAs(r.end, tried, old(tried), Hunt(flash, verdicts, Slot(old(multiboot)), k))
              else r.Returned? && multiboot == old(multiboot) && tried == old(tried) + [Slot(multiboot)]
      decreases SLOTS - Slot(multiboot), 0
    {
      hide Hunt, Slot, Flash.ImageIn, Flash.Inside, Flash.EndReachable, Flash.Next, Wrap32;
      var attempt := |tried|;
      ghost var before, slot := tried, Slot(multiboot);
      tried := tried + [Slot(multiboot)];
      if verdicts(attempt) == LoadFails {
        SlotStep(flash, multiboot);
        HuntAt(flash, verdicts, slot, attempt);
        var end := FsblFallback();
        OneMoreTried(end, tried, before, slot, Hunt(flash, verdicts, slot + 1, attempt + 1));
        return FellBack(end);
      }
      r := Returned;
    }

    method FsblHandoff() returns (end: End)
      requires flash.EndReachable() && flash.Inside(Slot(multiboot)) && tried != [] && Hunts()
      modifies this
      ensures var k := |old(tried)| - 1;
              if verdicts(k).Runs? then end == Application(Slot(old(multiboot))) && tried == old(tried)
              else EndsAs(end, tried, old(tried), Hunt(flash, verdicts, Slot(old(multiboot)) + 1, k + 1))
      ensures !failMark
      decreases SLOTS - Slot(multiboot), 0
    {
      hide Hunt, Slot, Flash.ImageIn, Flash.Inside, Flash.EndReachable, Flash.Next, Wrap32;
      SlotStep(flash, multiboot);
      var verdict := verdicts(|tried| - 1);
      if verdict == HandoffFails {
        end := FsblFallback();
        return;
      }
      failMark := false;
      if verdict != Runs {
        // the jump to the application has returned
        end := FsblFallback();
        return;
      }
      end := Application(Slot(multiboot));
    }
  }

  datatype Loading = Returned | FellBack(end: End)
}
