# Verification of the AD9361 driver and the Zynq first-stage boot loader

This project models two families of code and proves properties of the model.

**The clock and synthesiser engine of the AD9361 driver** (`ad9361.c`, `util.c`). The transceiver
is a file of byte registers and two fast-lock profile memories (`Registers`, `Device`). On top of
it stand the integer kernels (`Kernels`, `WordBits`, `Logarithm`), the fractional-N arithmetic of
the baseband PLL and of the two RF synthesisers (`Bbpll`, `Rfpll`, `Synth`), the dividers of the
baseband chain (`Dividers`), the search for a clock chain (`ClockChain`) and the data clock of the
interface (`DataClock`), the cached clock tree (`ClockTree`, `Coherence`), its reference clocks
(`References`), the way from a sample rate to programmed dividers (`EndToEnd`), LO tuning with its
fix-up of the other synthesiser and the fast-lock profiles (`LocalOscillator`, `FastLock`), what
whole runs of them leave in the device (`LoFrames`, `TuningTables`, `FastLockMode`, all in
`LoRuns.dfy`), LO clocks of the clock tree (`LoClocks`), and the longest-window search
(`WindowSearch`). The code that updates the driver's structures in place is in the classes of `LoDriver` and
`ClockDriver`; their methods are proved against the functions of the modules above.

**The storage and image logic of the boot loader** (`nand.c`, `qspi.c`, `md5.c`,
`image_mover.c`, `main.c`, `rsa.c`): flash readers that present bad blocks, banks and two dies as
one array of bytes (`Nand`, `Qspi`), MD5 against RFC 1321 (`Md5Spec`, `Md5Rounds`, `Md5Context`,
`Md5`), partition headers and the partition loader (`BootHeader`, `PartitionLoader`), the search
for the next valid image and the fallback recursion (`BootSearch`, `Fallback`), and the padding
check of RSA signatures (`RsaPadding`).

`dafny verify dfyconfig.toml` checks everything.

## What the proofs found

Where the code does not do what its name or comments suggest, the model follows the code.

- Restarting the BBPLL at its cached rate (the branch of `clk_set_rate` for an uninitialised
  BBPLL) refreshes no other clock. `Coherence.RestartCoherence` says from the state before the call
  exactly when the cache still agrees with the registers; it does for every rate inside the BBPLL
  range. A device that comes up at 400 MHz is a case where it does not
  (`Coherence.RestartLosesCoherence`); once the BBPLL runs the cache never gets out of step
  (`Coherence.RunningStaysCoherent`).
- `ad9361_bbpll_round_rate` leaves a rate of the registers alone exactly inside the BBPLL range
  (`Bbpll.RoundRateFixes`): 400 MHz becomes 715 MHz, and 1430 MHz from a reference of 70 MHz is
  rounded to 1430000014 Hz and that back to 1430 MHz (`Bbpll.SlowRegistersAreMoved`,
  `Bbpll.TopIsRoundedOut`).
- `ad9361_rfpll_int_set_rate` programs the other synthesiser with the reference rate of the one
  being tuned. The other one then holds the wrong words exactly when the references differ and a
  fix-up was due (`LocalOscillator.OtherKeepsItsWords`). With 80 MHz at RX and 40 MHz at TX and
  both LOs set to 2.4 GHz, RX ends at 4.8 GHz (`LocalOscillator.FixupMissesReference`).
- The initial charge-pump current of a stored fast-lock profile is meant to be the steady one. The
  bias coefficient shares its byte and lies over bits 3 and 4 of the current, so the two are equal
  exactly when those bits contain it (`TuningTables.InitialCurrent`).
- Rounding the rate of an external RX LO falls through to the TX case, so its range is checked
  exactly while the TX LO is internal (`LoClocks.ExternalReached`).
- Packing the frequency words clears the top bit of FRACT_BYTE_2 and keeps the upper bits of
  INTEGER_BYTE_1 (`Synth.ProgramLaw`).
- `clk_set_rate` on a dummy RFPLL falls through and leaves a rate of zero; rounding the rate of
  the RX RFPLL falls through to the TX case; `clk_get_rate` of an internal synthesiser falls
  through to its cached rate.
- The length check in `NandAccess` can never fail, because `XNandPs_CalculateLength` stops at the
  end of the device: an overlong request examines blocks outside the device instead
  (`Nand.NandAccess`).
- `QspiAccess` from an odd address of two dies in parallel delivers the bytes from the even
  address below (`Qspi.ParallelNeedsEvenSource`). After a transfer that crosses from the lower to
  the upper die of a stack, the bank register of the lower die is not reset; this matters exactly
  when the dies have more than one bank (`Qspi.Flash.LeftBank`). An empty transfer from a stack
  writes an uninitialised value to the configuration register.
- A failed bank selection ends a transfer without resetting bank or page; the bytes before it have
  been delivered (`Qspi.Reader.QspiAccess`).
- The terminator of a partition header table passes every check of a valid header
  (`BootHeader.TerminatorIsValid`).
- The test for an empty partition header never decides anything, because an empty header fails the
  checksum; and the limit on the image length lets through exactly one length whose byte count
  wraps, to zero (`BootHeader.ValidExactly`).
- Checksum and signature of a partition are taken over its partition length, and what is used has
  its image length. The checks see all of the image exactly when the image length is at most the
  partition length modulo 0x40000000 words (`PartitionLoader.ChecksCoverImage`); no header check
  asks for that. Of a signed bitstream with an image longer than its partition, the fabric receives
  the checked part and then whatever the memory behind it held
  (`PartitionLoader.Loader.ProgrammedByte`, `PartitionLoader.Loader.LongImageIsUnchecked`). At a
  partition length of 0x40000000 words the checked length is zero
  (`PartitionLoader.Loader.WrappedLengthIsUnchecked`).
- A partition marked neither PL nor PS keeps the kind of the one before it. When there is none, it
  is moved without any check of its load address; these are exactly the partitions that can be
  written to begin outside the DDR (`PartitionLoader.Loader.MovedOutsideDdr`,
  `PartitionLoader.Loader.NeitherIsWrittenAnywhere`). Of applications the begin is checked, not the
  end (`PartitionLoader.Loader.EndIsNotChecked`).
- `NextValidImageCheck` runs for ever on a flash larger than 0x1FFF times 32 KB without a valid
  image, and only then (`BootSearch.SearchEnds`).

## Model

| member | source | states |
|---|---|---|
| `Kernels.IntSqrt` | PS/apps/ad9361/util.c:233-253 | the result is the floor of the square root, for every 32-bit operand |
| `Kernels.TryBit` | PS/apps/ad9361/util.c:241-250 | one turn of the bit-pair loop keeps what is left of the operand in step with the root found so far, and its sums never wrap |
| `Kernels.Ilog2` | PS/apps/ad9361/util.c:258-284 | the branch-free logarithm: shifting by the result leaves exactly the highest bit |
| `Logarithm.Ilog2IsFloorLog2` | PS/apps/ad9361/util.c:258-284 | the branch-free logarithm is the floor of the base-2 logarithm for every positive operand |
| `Kernels.FindFirstBit` | PS/apps/ad9361/util.c:302-325 | the bit found is set and every lower one is clear; 31 for zero |
| `Registers.WriteThenRead` | PS/apps/ad9361/ad9361.c:623-710 | a field reads back as it was written, up to its width |
| `Registers.WriteElsewhere` | PS/apps/ad9361/ad9361.c:693-710 | writing a field leaves every disjoint field alone |
| `Registers.WriteMLaw` | PS/apps/ad9361/ad9361.c:731-767 | a multi-byte write fills the registers from the address downwards and touches no other |
| `Device.WriteManyStores` | PS/apps/ad9361/ad9361.c:731-767 | away from the fast-lock control registers a multi-byte SPI write only stores |
| `Device.ScriptAt` | PS/apps/ad9361/ad9361.c:693-710 | a register written once in a sequence of field writes holds what was merged into it |
| `Device.Script` | PS/apps/ad9361/ad9361.c:659-710 | a sequence of writes outside tuning, clock and program-control registers changes neither tuning nor clocks nor profiles |
| `Dividers.FieldsValid` | PS/apps/ad9361/ad9361.c:649-650 | the position of each divider field is the lowest set bit of its mask, as the SPI layer computes it |
| `Dividers.CodeFits` | PS/apps/ad9361/ad9361.c:5966-6095 | every divider that can be programmed, the ADC divider 64 included, has a field value that fits its field and decodes to it |
| `Dividers.EncodableExactly` | PS/apps/ad9361/ad9361.c:5966-6095 | these are exactly the dividers that are accepted and read back: all others are refused, rounded down or cut off |
| `Dividers.StoreLaw` | PS/apps/ad9361/ad9361.c:5966-6095 | the fields of the ten divider clocks are independent: each keeps its value when another is written |
| `Dividers.SetThenGet` | PS/apps/ad9361/ad9361.c:5843-6095 | setting a divider and getting it back is the identity, and no other clock sees a difference |
| `Dividers.GetThenSet` | PS/apps/ad9361/ad9361.c:5843-6095 | which field values are written again from the divider they stand for, for every clock and value |
| `Dividers.RegisterLayout` | PS/apps/ad9361/ad9361.c:5966-6095 | where each of the ten divider fields lies in its register, as quotient and remainder of the byte |
| `Bbpll.FractWithinModulus` | PS/apps/ad9361/ad9361.c:6214-6245 | the fraction rounds up to the modulus at most |
| `Bbpll.RoundingError` | PS/apps/ad9361/ad9361.c:6214-6245 | the achieved rate misses the request by at most half a fraction step and one truncation: 17 Hz up to 70 MHz reference |
| `Bbpll.RegisterRatesAreFixed` | PS/apps/ad9361/ad9361.c:6187-6302 | programming a rate the registers can stand for, without clamping, reaches it again, also when the fraction was rounded up to the modulus |
| `Bbpll.RoundRateFixes` | PS/apps/ad9361/ad9361.c:6214-6245 | `ad9361_bbpll_round_rate` leaves a rate of the registers alone if and only if it lies in the BBPLL range |
| `Bbpll.RoundedOnce` | PS/apps/ad9361/ad9361.c:6214-6245 | rounding is idempotent exactly on results inside the range |
| `Bbpll.SmallReferenceLosesAHertz` | PS/apps/ad9361/ad9361.c:6214-6245 | for references far below the driver's range rounding is not idempotent |
| `Rfpll.CalcDividers` | PS/apps/ad9361/ad9361.c:6350-6377 | the doubling loop rejects exactly the carriers outside the device's range and computes divider and words of all others |
| `Rfpll.DoublingsReachBand` | PS/apps/ad9361/ad9361.c:6359-6362 | doubling ends with the VCO above 6 and at most at 12 GHz |
| `Rfpll.WordsFitRegisters` | PS/apps/ad9361/ad9361.c:6350-6377 | for every accepted carrier and reference the integer fits 11 bits, the fraction 23, the divider code is 0 to 6 and the VCO in (6 GHz, 12 GHz] |
| `Rfpll.VcoError` | PS/apps/ad9361/ad9361.c:6327-6377 | at the VCO the words miss the frequency by 5 Hz at most |
| `Rfpll.CarrierRoundTrip` | PS/apps/ad9361/ad9361.c:6327-6377 | recomputing the carrier from its words gives it back within 3 Hz |
| `Synth.VcoIndex` | PS/apps/ad9361/ad9361.c:1500-1501 | the table loop stops at the first entry not above the VCO frequency |
| `Synth.LutFrom` | PS/apps/ad9361/ad9361.c:1500-1501 | every entry before the result is above the frequency, the result is not |
| `Synth.LookupInsideTable` | PS/apps/ad9361/ad9361.c:1466-1501 | for every accepted carrier the lookup index is inside the 53 entries |
| `Synth.PackRoundTrip` | PS/apps/ad9361/ad9361.c:6515-6523 | packing the words into five bytes and unpacking them is the identity; the kept bits of the integer byte stay, the top fraction bit is cleared |
| `Synth.ProgramBytes` | PS/apps/ad9361/ad9361.c:6515-6523 | the five bytes land in the five frequency registers and nowhere else |
| `Synth.DividerLaw` | PS/apps/ad9361/ad9361.c:6524-6524 | the VCO divider reads back and the other synthesiser keeps its own in the same register |
| `Synth.DividerLayout` | PS/apps/ad9361/ad9361.c:6385-6433 | the RX divider is the lower and the TX divider the upper half of their register |
| `Synth.VcoInit` | PS/apps/ad9361/ad9361.c:1466-1539 | preparing the VCO leaves the frequency words, the clock registers and the profiles of both synthesisers alone |
| `Synth.VcoInitReads` | PS/apps/ad9361/ad9361.c:1466-1539 | after preparing the VCO every field of VCO and loop filter reads back the value of the table row |
| `Synth.ProgramLaw` | PS/apps/ad9361/ad9361.c:6510-6524 | programming a synthesiser loses nothing: integer, fraction and divider read back, the other synthesiser, the clocks and the profiles keep theirs |
| `FastLock.AddrRoundTrip` | PS/apps/ad9361/ad9361.c:4564-4577 | the address byte selects word `word` of profile `profile` |
| `FastLock.ReadValLaw` | PS/apps/ad9361/ad9361.c:4564-4577 | reading a profile word delivers it and moves only the address register |
| `FastLock.WriteValLaw` | PS/apps/ad9361/ad9361.c:4589-4611 | writing one word changes that word of that profile only |
| `FastLock.LoadTurn` | PS/apps/ad9361/ad9361.c:4637-4643 | one burst commits the word staged before and stages the next one |
| `FastLock.StagedTurn` | PS/apps/ad9361/ad9361.c:4637-4643 | the load loop always has the words before the staged one in the profile |
| `FastLock.StagedEnd` | PS/apps/ad9361/ad9361.c:4645-4647 | the last two writes commit the last word and stop the clock |
| `FastLock.SaveAfterLoad` | PS/apps/ad9361/ad9361.c:4621-4655 | saving a loaded profile gives the loaded words; every other profile of both directions keeps its own |
| `LoDriver.ProgramProfile` | PS/apps/ad9361/ad9361.c:4621-4648 | the pipelined transfers put exactly the given words into the profile |
| `LoDriver.Phy.FastLockLoad` | PS/apps/ad9361/ad9361.c:4621-4655 | loading a profile records its ALC word as original and as written |
| `LoDriver.Phy.FastLockStore` | PS/apps/ad9361/ad9361.c:4664-4724 | storing loads the profile with the words of the synthesiser registers |
| `LoDriver.Phy.FastLockSave` | PS/apps/ad9361/ad9361.c:4849-4861 | saving delivers the sixteen words of the profile in order |
| `LoDriver.Phy.FastLockRecall` | PS/apps/ad9361/ad9361.c:4794-4839 | recalling fails exactly for a profile that was never loaded, and otherwise reaches the state of the specification, which `FastLockMode.RecallSelects` and `FastLockMode.RecallChangesActiveAlc` pin in the device |
| `LoDriver.Phy.TuneOnce` | PS/apps/ad9361/ad9361.c:1466-1539 | the synthesiser is programmed with its words and the table entry of the specification, which `TuningTables.TunedTable` describes independently |
| `LoDriver.Phy.RfpllIntSetRate` | PS/apps/ad9361/ad9361.c:6469-6579 | the do/while runs at most twice from any state, and reaches what the specification of tuning says; `TuningTables.TunedTable` and `LocalOscillator.SetLoKeepsTuned` say which words and table entries that leaves |
| `LocalOscillator.Enter` | PS/apps/ad9361/ad9361.c:4734-4761 | entering fast lock changes neither tuning nor clocks nor profiles |
| `LocalOscillator.LeaveLaw` | PS/apps/ad9361/ad9361.c:4768-4782 | leaving fast lock clears the profile of its side only; words, clocks, stored profiles and the other side stay |
| `LocalOscillator.TuneLaw` | PS/apps/ad9361/ad9361.c:6510-6524 | one turn leaves the synthesiser holding the words of its LO and the other one its own |
| `LocalOscillator.FixupSettles` | PS/apps/ad9361/ad9361.c:6469-6579 | after tuning no fix-up is due; with a shared state machine both use one kind of table, TDD exactly when the LOs are equal |
| `LocalOscillator.NoThirdTurn` | PS/apps/ad9361/ad9361.c:6510-6572 | the second turn never asks for a third |
| `LocalOscillator.SetLoKeepsTuned` | PS/apps/ad9361/ad9361.c:6469-6579 | tuning one LO leaves both synthesisers holding the words of their LOs, for a reference rate that is stated, and clocks and profiles unchanged |
| `LocalOscillator.WordsNameTheirReference` | PS/apps/ad9361/ad9361.c:6350-6377 | the words of an LO are different for any two reference rates |
| `LocalOscillator.OtherKeepsItsWords` | PS/apps/ad9361/ad9361.c:6469-6579 | with any two references, after tuning one side the other one still holds its own words if and only if the references agree or no fix-up was due |
| `LocalOscillator.FixupMissesReference` | PS/apps/ad9361/ad9361.c:6527-6563 | a run of two tunings after which the other synthesiser runs at twice its LO |
| `LocalOscillator.TunedReportsItsLo` | PS/apps/ad9361/ad9361.c:6385-6433 | the reported rate is the one last set, within 2 of the halved unit |
| `LocalOscillator.AlcStep` | PS/apps/ad9361/ad9361.c:4808-4829 | the ALC word a recall writes is the original or two above it, and its upper seven bits differ from the active one |
| `LocalOscillator.RecallLaw` | PS/apps/ad9361/ad9361.c:4794-4839 | a recall changes only the ALC word of the recalled profile and the record of it |
| `LocalOscillator.RecallKeepsProfiles` | PS/apps/ad9361/ad9361.c:4794-4839 | a recall records the profile as active and keeps the records of all profiles in step with the device |
| `LocalOscillator.RecallChangesAlc` | PS/apps/ad9361/ad9361.c:4808-4829 | after a recall the profile's ALC word, recorded and in the device, differs from the one active before |
| `LocalOscillator.LoadKeepsProfiles` | PS/apps/ad9361/ad9361.c:4621-4655 | loading keeps the records of all profiles in step with the device |
| `LocalOscillator.StoreThenRecall` | PS/apps/ad9361/ad9361.c:4664-4724 | storing the tuned LO and recalling it makes the driver report the same carrier as before; `FastLockMode.StoredCarrierRuns` says the same of the device |
| `LocalOscillator.PackedDivider` | PS/apps/ad9361/ad9361.c:4706-4711 | the divider survives in the lower half of its profile word |
| `LocalOscillator.RunsKeepInvariant` | PS/apps/ad9361/ad9361.c:4621-4861 | over every run of tuning, loading, storing and recalling, with any two references, the profile records are right and each synthesiser holds the words of its LO for the reference followed through the run |
| `LocalOscillator.RunsReportTheirLo` | PS/apps/ad9361/ad9361.c:4621-4861 | after every run an LO is held, and reads back within rounding, exactly when the words are for the synthesiser's own reference |
| `LocalOscillator.HeldForStays` | PS/apps/ad9361/ad9361.c:6469-6579 | which is always so with equal references or separate state machines |
| `TuningTables.RangeIs` | PS/apps/ad9361/ad9361.c:1447-1456 | the table range is the one whose nominal reference (40, 60 or 80 MHz) is nearest, the middle one half way |
| `TuningTables.RowIs` | PS/apps/ad9361/ad9361.c:1500-1501 | the table row is the first one not above the VCO frequency in MHz |
| `TuningTables.VcoIs` | PS/apps/ad9361/ad9361.c:6350-6377 | the VCO frequency is the only power-of-two multiple of the carrier above 6 and up to 12 GHz |
| `TuningTables.SetLoTables` | PS/apps/ad9361/ad9361.c:6469-6579 | tuning one LO leaves the registers of both sides on the table entry of their own LO, of the kind their flag says, for the reference their words are for |
| `TuningTables.TunedTable` | PS/apps/ad9361/ad9361.c:1466-1539 | after tuning, VCO and loop filter of the tuned side, and of the other one when it was fixed up, read the entry of the nearest range and the first row not above the VCO, in the TDD table exactly when the flag of the side is set |
| `TuningTables.RunsKeepTables` | PS/apps/ad9361/ad9361.c:4621-4861 | over every run of tuning, loading, storing and recalling each side stays on the table entry of its LO |
| `TuningTables.TableInForce` | PS/apps/ad9361/ad9361.c:1466-1539 | after every run the registers of each side with an LO read the entry of nearest range, first row and flagged kind |
| `TuningTables.TableExists` | PS/apps/ad9361/ad9361.c:1466-1501 | for every accepted carrier and reference there is such an entry |
| `TuningTables.RunsKeepCached` | PS/apps/ad9361/ad9361.c:6469-6579 | after every run the cached VCO divider of a side is the one of its LO |
| `TuningTables.StoredEntry` | PS/apps/ad9361/ad9361.c:4664-4724 | a stored profile holds the table entry of its side: which value lies in which half of which word |
| `TuningTables.StoredWords` | PS/apps/ad9361/ad9361.c:4676-4711 | its first five words are the frequency registers in the order of their addresses, and the lower half of word 12 is the divider |
| `TuningTables.StoredCalibration` | PS/apps/ad9361/ad9361.c:4717-4721 | its last two words are the calibrated VCO tune word and the ALC word |
| `TuningTables.InitialCurrent` | PS/apps/ad9361/ad9361.c:4686-4692 | the initial charge-pump current of a stored profile is the steady one if and only if its bits 3 and 4 contain the bias coefficient |
| `FastLockMode.RecallSelects` | PS/apps/ad9361/ad9361.c:4832-4838 | after a recall bits 7 to 5 of the setup register are the profile, bit 0 is set, bit 1 is the pin control setting and the rest is zero; the other side keeps its register |
| `FastLockMode.LeaveClears` | PS/apps/ad9361/ad9361.c:4768-4782 | after leaving fast lock the setup register is zero, and that of the other side unchanged |
| `FastLockMode.LeaveRestores` | PS/apps/ad9361/ad9361.c:4768-4782 | leaving fast lock turns VCO calibration on again and takes the ready mark of its side away, not that of the other one |
| `FastLockMode.LeaveReleases` | PS/apps/ad9361/ad9361.c:4772-4776 | after leaving fast lock neither the ALC word nor the VCO tune word is forced |
| `FastLockMode.EnterPrepares` | PS/apps/ad9361/ad9361.c:4755-4767 | entering fast lock marks the synthesiser as ready, stops VCO calibration and sets the delay in steps of 250 ns |
| `FastLockMode.StoredCarrierRuns` | PS/apps/ad9361/ad9361.c:4664-4839 | storing the tuned LO and recalling it makes the device run from that profile, at the carrier that was in the synthesiser registers |
| `FastLockMode.ReportsCarrier` | PS/apps/ad9361/ad9361.c:6385-6433 | when the driver's profile is the selected one, the rate it reports is the carrier the device runs at |
| `FastLockMode.RunsKeepMode` | PS/apps/ad9361/ad9361.c:4621-4861 | over every run from a reset the driver's profile is the one the setup register selects |
| `FastLockMode.RunsReportCarrier` | PS/apps/ad9361/ad9361.c:4621-4861 | so after every run the driver reports the carrier of the device |
| `FastLockMode.CurrentIsActive` | PS/apps/ad9361/ad9361.c:4810-4817 | the driver takes the current ALC word from where the device does |
| `FastLockMode.RecallChangesActiveAlc` | PS/apps/ad9361/ad9361.c:4808-4839 | a recall always changes the upper seven bits of the ALC word in force in the device |
| `FastLockMode.TunedCalibration` | PS/apps/ad9361/ad9361.c:6469-6579 | where calibration is skipped in TDD mode, it is off again after tuning |
| `ClockChain.PickRows` | PS/apps/ad9361/ad9361.c:4436-4467 | the table search stops at the first row with the ADC rate in range and picks the TX row for it |
| `ClockChain.TargetBbpll` | PS/apps/ad9361/ad9361.c:4481-4487 | the halving loop finds the highest power-of-two multiple within the BBPLL range |
| `ClockChain.TryFrom` | PS/apps/ad9361/ad9361.c:4436-4503 | one pass writes both path arrays or, failing, neither |
| `ClockChain.CalculateRfClockChain` | PS/apps/ad9361/ad9361.c:4391-4504 | the recursion terminates for every governor and fills the arrays with the chain of the specification |
| `ClockChain.FillPath` | PS/apps/ad9361/ad9361.c:4489-4501 | the five clocks below the BBPLL |
| `ClockChain.BbpllInBand` | PS/apps/ad9361/ad9361.c:4481-4487 | for every ADC rate in range the BBPLL is 2, 4, 8, 16 or 32 times it and lies in (715 MHz, 1430 MHz] |
| `ClockChain.RowStages` | PS/apps/ad9361/ad9361.c:4401-4409 | the three stages of each table row undo its oversampling ratio |
| `ClockChain.PairedRow` | PS/apps/ad9361/ad9361.c:4443-4467 | with equal clocks the TX row matches a DAC at the ADC rate, or at half of it above 320 MHz |
| `ClockChain.SolutionsAreExact` | PS/apps/ad9361/ad9361.c:4391-4504 | every chain found divides without remainder down to the requested rate, within all clock ranges; on the TX side with equal FIR factors |
| `ClockChain.SolverIsComplete` | PS/apps/ad9361/ad9361.c:4391-4504 | with equal FIR factors a chain is found exactly when some row from the governor on is feasible, and the first one is taken |
| `ClockChain.NominalGovernor` | PS/apps/ad9361/ad9361.c:4424-4441 | the nominal governor finds a row whenever the highest oversampling does, and takes the highest oversampling exactly when no other row is feasible |
| `Coherence.RecalcDepends` | PS/apps/ad9361/ad9361.c:6103-6205 | a clock's rate depends on the registers and on clocks before it only: the refresh order is topological |
| `Coherence.RefreshQuiet` | PS/apps/ad9361/util.c:190-215 | refreshing reads, and moves fast-lock addresses at most |
| `Coherence.RefreshIsCoherent` | PS/apps/ad9361/util.c:190-215 | from any cache, the refresh loops end with every rate as registers and parent give it |
| `Coherence.BbpllWords` | PS/apps/ad9361/ad9361.c:6254-6313 | integer and fraction are written byte by byte and read back |
| `Coherence.BbpllReadsBack` | PS/apps/ad9361/ad9361.c:6187-6313 | programming the BBPLL and recalculating its rate gives the rounded rate |
| `Coherence.RoundedIsReported` | PS/apps/ad9361/ad9361.c:6187-6313 | the rounded rate, programmed, is reported exactly inside the range; a clamp is reported as its nearest register rate |
| `Coherence.BbpllRestart` | PS/apps/ad9361/util.c:216-225 | a rate the registers stand for is programmed back without change |
| `Coherence.RestartCoherence` | PS/apps/ad9361/util.c:216-225 | restarting the BBPLL keeps the cache right if and only if the ADC clock already shows what the restarted BBPLL gives it, computed from the state before; it does inside the BBPLL range |
| `Coherence.RestartLosesCoherence` | PS/apps/ad9361/util.c:216-225 | a registered device at 400 MHz whose cache a restart puts out of step |
| `Coherence.SetRateCoherence` | PS/apps/ad9361/util.c:121-228 | clk_set_rate keeps a coherent cache coherent exactly when the request is safe, and repairs any cache when the rate changes |
| `Coherence.RunsStayCoherent` | PS/apps/ad9361/util.c:121-228 | through a sequence of requests every cached rate stays the one registers and parent give, if and only if every restart in it is safe |
| `Coherence.RunningStaysCoherent` | PS/apps/ad9361/util.c:121-228 | once the BBPLL has been started, through any sequence of requests |
| `Coherence.RegistrationIsCoherent` | PS/apps/ad9361/ad9361.c:6893-7010 | registration fills the cache with the rates of the registers |
| `ClockTree.ChargePumpIsNearest` | PS/apps/ad9361/ad9361.c:6264-6273 | the BBPLL charge-pump code is the nearest step of 25 uA to the current that scales with rate and reference, clamped to codes 1 and 64 |
| `ClockTree.LoopFilterBytes` | PS/apps/ad9361/ad9361.c:6275-6277 | the three loop filter bytes lie from LOOP_FILTER_3 downwards |
| `LoClocks.InternalApplies` | PS/apps/ad9361/ad9361.c:6659-6750 | a rate for an LO clock reaches the synthesiser of its own side, unrounded if it is valid, with the reference of that side |
| `LoClocks.InternalReached` | PS/apps/ad9361/util.c:121-228 | clk_set_rate on each of the four internal LO clocks, with a valid carrier: the LO of its own side is the rate, its cached rate is within 2 of it, the other LO is unchanged, and the cache is coherent |
| `LoClocks.OtherStillReads` | PS/apps/ad9361/util.c:121-228 | the other LO clock still reads its own LO, unless it was fixed up for a reference that is not its own |
| `LoClocks.InvalidChangesNoLo` | PS/apps/ad9361/ad9361.c:6350-6377 | a carrier outside the range changes neither LO |
| `LoClocks.ExternalReached` | PS/apps/ad9361/util.c:121-228 | clk_set_rate on an external LO clock tunes no synthesiser; the dummy clock of its own side and the clock itself read the rate, or the error code for a checked rate out of range; the other dummy clock keeps its rate |
| `LoClocks.DummyBecomesZero` | PS/apps/ad9361/util.c:121-228 | setting a dummy clock leaves it at zero |
| `LoClocks.RegisteredDummies` | PS/apps/ad9361/ad9361.c:6786-7010 | registration gives each dummy clock the frequency of its side in the platform data |
| `ClockDriver.Clocks.RefreshAll` | PS/apps/ad9361/util.c:190-215 | the five loops refresh every clock after its parent |
| `ClockDriver.Clocks.ClkSetRate` | PS/apps/ad9361/util.c:121-228 | the method reaches the specified state, coherent whenever the rate differed; for LO clocks `LoClocks.InternalReached` and `LoClocks.ExternalReached` say what that state is |
| `ClockDriver.Clocks.ClkGetRate` | PS/apps/ad9361/util.c:67-116 | with a coherent cache, returns the cached rate and leaves cache, tuning, clock registers and profiles as they are |
| `ClockDriver.GetRateIsCached` | PS/apps/ad9361/util.c:67-116 | in a coherent tree clk_get_rate returns the cached rate of every clock |
| `ClockDriver.Clocks.SetSource` | PS/apps/ad9361/util.c:132-187 | the switch over the kinds of clock reaches the specified state; for LO clocks the one `LoClocks.InternalApplies` describes |
| `ClockDriver.Clocks.SetRfpllRate` | PS/apps/ad9361/ad9361.c:6659-6750 | internal synthesiser of its own side or dummy clock of its own side, after the rounding that falls through (`LoClocks.InternalApplies`, `LoClocks.ExternalReached`) |
| `ClockDriver.Clocks.RegisterClocks` | PS/apps/ad9361/ad9361.c:6786-7010 | registration in its own order gives the coherent cache of the specification |
| `ClockDriver.ReferencesInAnyOrder` | PS/apps/ad9361/ad9361.c:6908-6924 | the reference clocks may be registered in any order |
| `ClockDriver.Clocks.SetChain` | PS/apps/ad9361/ad9361.c:4298-4316 | the loop sets the BBPLL and then RX and TX stages alternately |
| `ClockDriver.Clocks.SetTrxClockChain` | PS/apps/ad9361/ad9361.c:4273-4331 | a chain is refused without any change exactly when no clock equals the data clock; otherwise all stages are set; which chains are refused is `EndToEnd.DriverAccepts` |
| `DataClock.NearIsEqual` | PS/apps/ad9361/ad9361.c:4249-4259 | within 4 Hz of the data clock means equal to it, at every sample rate: other ratios are far apart |
| `DataClock.AcceptedExactly` | PS/apps/ad9361/ad9361.c:4232-4265 | a chain is accepted if and only if its ADC ratio n is p, 2p or 3p, or 2, 4, 8 or 16 times d2*p, where p is 4 for LVDS 2R2T, 2 for LVDS 1R1T and CMOS 2R2T, 1 for CMOS 1R1T and d2 is the first stage; over CMOS 2R2T only up to 30.72 MHz |
| `DataClock.SolvedIsAccepted` | PS/apps/ad9361/ad9361.c:4232-4504 | so a chain of the solver is accepted exactly when oversampling times FIR factor and first stage of the first feasible row fit the interface |
| `DataClock.CmosInstance` | PS/apps/ad9361/ad9361.c:4236-4265 | 40 MHz over CMOS 1R1T is accepted: a quarter of the first stage of a 480 MHz ADC |
| `EndToEnd.RatioExact` | PS/apps/ad9361/ad9361.c:6121-6176 | rounding to the nearest ratio finds the intended divider although the parent is off by up to 17 Hz, and finds it again from the rounded rate |
| `EndToEnd.MatchingRateMeansDivider` | PS/apps/ad9361/util.c:130-131 | where clk_set_rate does nothing because the rate already matches, the divider is the intended one |
| `EndToEnd.StageSets` | PS/apps/ad9361/util.c:121-228 | one stage gets its intended divider and all others, the reference and the BBPLL keep theirs |
| `EndToEnd.TargetsReached` | PS/apps/ad9361/ad9361.c:6103-6112 | below correct dividers every clock is within 17 Hz of its target |
| `EndToEnd.BbpllReached` | PS/apps/ad9361/ad9361.c:6214-6313 | setting the BBPLL lands within 17 Hz of the target |
| `EndToEnd.StagesSet` | PS/apps/ad9361/ad9361.c:4298-4316 | each stage in turn gets its divider and keeps it while the later ones are set; no call meets an undefined case |
| `EndToEnd.ExactChainIsProgrammable` | PS/apps/ad9361/ad9361.c:5966-6095 | every stage of a chain found by the solver has a divider the hardware can be given |
| `EndToEnd.SampleWithinTwoHz` | PS/apps/ad9361/ad9361.c:4273-4321 | nested floors collapse: a path dividing by at least twelve reads back within 2 Hz |
| `EndToEnd.RxSampleRate` | PS/apps/ad9361/ad9361.c:4298-4316 | the RX sample clock is within 2 Hz of the request |
| `EndToEnd.TxSampleRate` | PS/apps/ad9361/ad9361.c:4298-4316 | so is the TX one, through the DAC |
| `EndToEnd.EnablesSetFilters` | PS/apps/ad9361/ad9361.c:4318-4331 | behind the right dividers, the enables leave each FIR code as configured: zero for a bypassed filter, else one more than the logarithm of its factor |
| `EndToEnd.EnablesKeepDividers` | PS/apps/ad9361/ad9361.c:4318-4331 | enabling the filters at the end changes no divider |
| `EndToEnd.EnablesKeepCoherent` | PS/apps/ad9361/ad9361.c:4318-4331 | nor does it put the cache out of step |
| `EndToEnd.DriverAccepts` | PS/apps/ad9361/ad9361.c:4273-4297 | the driver takes a chain of the solver if and only if the first feasible row of the table fits the interface |
| `EndToEnd.SampleRateIsReached` | PS/apps/ad9361/ad9361.c:4273-4504 | end to end: with equal FIR factors, a chain found whose row fits the interface is accepted, leaves every divider as intended, both FIR filters as configured, the cache coherent and both sample clocks within 2 Hz of the request, from any coherent tree |
| `EndToEnd.InstanceExists` | PS/apps/ad9361/ad9361.c:4273-4504 | 30.72 MHz over LVDS from 40 MHz is an instance, with its chain written out |
| `References.StoreRefLaw` | PS/apps/ad9361/ad9361.c:5843-6002 | setting a reference scaler and getting it back is the identity, also for the code split over two registers, and the other two references keep theirs |
| `References.CodeLayout` | PS/apps/ad9361/ad9361.c:5843-6002 | where the scaler codes lie in their registers, the RX one in two of them |
| `References.CodeMeaning` | PS/apps/ad9361/ad9361.c:5914-5930 | a scaler code divides the reference input by its power of two, except the last one, which doubles it |
| `References.RatioIsNearest` | PS/apps/ad9361/ad9361.c:6121-6176 | the rounded ratio misses its target by at most half, and is never zero |
| `References.ScalerOfRatio` | PS/apps/ad9361/ad9361.c:5942-5957 | a reference scaler is found for exactly the four ratios it has, both numbers cut off to four bits |
| `References.RatioOfCode` | PS/apps/ad9361/ad9361.c:5942-6176 | the rounded ratio of a rate that some scaler code gives is that scaler, so rounding such a rate changes nothing |
| `References.ReferenceReached` | PS/apps/ad9361/util.c:121-228 | asking for a rate that some scaler gives reads back exactly, whatever the scaler was before, and leaves the whole cache coherent |
| `WindowSearch.FindOpt` | PS/apps/ad9361/ad9361.c:813-840 | length and first start of the longest run of zeros of any array; zero and zero if there is none |
| `WindowSearch.MiddleHasLargestMargin` | PS/apps/ad9361/ad9361.c:2838-2857 | the phase in the middle of the longest window of the doubled field has the largest margin to a failing phase of all phases, counted around the circle |
| `WindowSearch.MarginBelowHalf` | PS/apps/ad9361/ad9361.c:2852-2853 | a margin reaching around the circle leaves no phase failing |
| `WindowSearch.QuadCal.PhaseSearch` | PS/apps/ad9361/ad9361.c:2838-2877 | calibrates every phase once and then the one with the largest margin, hence a converging one if any does; after a failed run the phase is as before |
| `Nand.CalculateLength` | PS/hw/fsbl/nand.c:262-293 | the length including bad blocks, without wrapping |
| `Nand.ActLenCovers` | PS/hw/fsbl/nand.c:262-293 | that length ends at a block boundary and covers all wanted bytes, or reaches the end of the device |
| `Nand.Locate` | PS/hw/fsbl/nand.c:183-198 | the physical offset of a source address among the good blocks |
| `Nand.BlockInContents` | PS/hw/fsbl/nand.c:147-152 | a good block's bytes are found in the concatenation of the good blocks at the place of its offset |
| `Nand.PlaceMonotone` | PS/hw/fsbl/nand.c:147-152 | places in that concatenation grow with physical offsets |
| `Nand.PieceInside` | PS/hw/fsbl/nand.c:210-241 | each read lies inside one good block and inside the computed length |
| `Nand.ReadGood` | PS/hw/fsbl/nand.c:210-241 | the read loop delivers the wanted bytes, skipping bad blocks |
| `Nand.NandAccess` | PS/hw/fsbl/nand.c:166-244 | a transfer delivers bytes [source, source + length) of the good blocks and changes nothing else, exactly when that many are left; no bad block is read and the computed length covers every read |
| `Qspi.CutLaw` | PS/hw/fsbl/qspi.c:579-602 | cutting at the bank boundary leaves a non-empty read inside one bank |
| `Qspi.TracksTurn` | PS/hw/fsbl/qspi.c:558-602 | the selected bank is always the one of the next read, and a crossing makes the next one be selected |
| `Qspi.ParallelNeedsEvenSource` | PS/hw/fsbl/qspi.c:512-514 | reading two dies in parallel gives the right bytes for every content exactly from even addresses |
| `Qspi.Flash.LeftBank` | PS/hw/fsbl/qspi.c:528-552 | the lower die is left away from bank 0 exactly by a transfer across the middle of a stack of dies with several banks |
| `Qspi.Reader.SendBankSelect` | PS/hw/fsbl/qspi.c:674-762 | on success the bank register of the selected die, or of both in parallel, holds the bank; it fails only when a transfer or the read-back does |
| `Qspi.Reader.Fetch` | PS/hw/fsbl/qspi.c:604-613 | a read inside the selected bank delivers exactly the flash bytes to the destination |
| `Qspi.Reader.SelectDie` | PS/hw/fsbl/qspi.c:528-552 | the upper die is selected from its first address on |
| `Qspi.Reader.SelectBank` | PS/hw/fsbl/qspi.c:557-573 | a read goes ahead only with the register of the current die holding the bank of the address |
| `Qspi.Reader.ReadChunk` | PS/hw/fsbl/qspi.c:579-612 | a chunk is non-empty, at most 4096 bytes, inside one bank with that bank selected, and delivers the flash bytes |
| `Qspi.Reader.NextChunk` | PS/hw/fsbl/qspi.c:614-628 | after a chunk the transfer stands at the next flash position |
| `Qspi.Reader.BusDelivers` | PS/hw/fsbl/qspi.c:438-463 | inside one selected bank the bus carries the bytes of the flash |
| `Qspi.Reader.QspiAccess` | PS/hw/fsbl/qspi.c:482-659 | a transfer delivers the flash bytes from the source address (the even one below it in parallel), in chunks that are all in order, changes nothing else, and leaves the stated banks, page bit and configuration register; it fails only when a bank selection does, with the bytes before delivered |
| `Md5Bits.F1IsF` | PS/hw/fsbl/md5.h:84 | the optimised F1 is the function F of RFC 1321 |
| `Md5Bits.F2IsG` | PS/hw/fsbl/md5.h:85 | F1 with its arguments turned is the function G |
| `Md5Rounds.MacroIsStep` | PS/hw/fsbl/md5.h:93-94 | the step macro computes the new word of its step of RFC 1321 |
| `Md5Rounds.FourSteps` | PS/hw/fsbl/md5.c:185-251 | four steps in a row bring the four words back to their places |
| `Md5Rounds.RoundOne` | PS/hw/fsbl/md5.c:185-200 | round 1, literal by literal, is steps 1 to 16 of the standard |
| `Md5Rounds.RoundTwo` | PS/hw/fsbl/md5.c:202-217 | round 2 is steps 17 to 32 |
| `Md5Rounds.RoundThree` | PS/hw/fsbl/md5.c:219-234 | round 3 is steps 33 to 48 |
| `Md5Rounds.RoundFour` | PS/hw/fsbl/md5.c:236-251 | round 4 is steps 49 to 64 |
| `Md5Context.FeedConcat` | PS/hw/fsbl/md5.c:306-376 | feeding x and then y leaves the same whole context as feeding x and y together |
| `Md5Context.FeedBits` | PS/hw/fsbl/md5.c:315-332 | the bit count is the true one modulo 2^64, and the fill level the byte count modulo 64 |
| `Md5Context.FeedInside` | PS/hw/fsbl/md5.c:338-350 | bytes that do not fill the block are only stored |
| `Md5Context.FeedToEnd` | PS/hw/fsbl/md5.c:352-373 | bytes that fill the block hash it |
| `Md5Context.FeedIsHash` | PS/hw/fsbl/md5.c:306-376 | on whole blocks, bytewise feeding is the blockwise hash of RFC 1321 |
| `Md5Context.FinishedIsDigest` | PS/hw/fsbl/md5.c:397-454 | a context fed with a message, whatever its block held before, leads to the digest of RFC 1321 |
| `Md5.Copy` | PS/hw/fsbl/md5.c:123-147 | copies count bytes and nothing else; with a byte swap whole words only, each turned round |
| `Md5.SwappedTwice` | PS/hw/fsbl/md5.c:133-144 | swapping the bytes twice is the identity |
| `Md5.Set` | PS/hw/fsbl/md5.c:97-105 | sets count bytes and nothing else |
| `Md5.CarryLaw` | PS/hw/fsbl/md5.c:319-327 | the carry test on the wrapped sum makes two 32-bit words a 64-bit counter |
| `Md5.CountBytes` | PS/hw/fsbl/md5.c:445-446 | the two words in memory are the eight bytes of the count |
| `Md5.Context.Init` | PS/hw/fsbl/md5.c:273-284 | the initial state, with the block as it was |
| `Md5.Context.Transform` | PS/hw/fsbl/md5.c:176-258 | the compression function of RFC 1321 on the block |
| `Md5.Context.Update` | PS/hw/fsbl/md5.c:306-376 | the context after the update is the one after feeding the bytes one by one |
| `Md5.Context.PadToCount` | PS/hw/fsbl/md5.c:404-441 | padding up to the count, through an extra block when fewer than eight bytes are left |
| `Md5.Context.Final` | PS/hw/fsbl/md5.c:397-454 | the digest the context leads to |
| `Md5.TwoBlocks` | PS/hw/fsbl/md5.c:424-434 | padding over two blocks is hashed as the standard says |
| `Md5.Hashed` | PS/hw/fsbl/md5.c:475-484 | md5 computes the digest of RFC 1321 of every input |
| `BootHeader.ValidateChecksum` | PS/hw/fsbl/image_mover.c:997-1026 | a header passes exactly when its sixteen words add up to all ones |
| `BootHeader.OneWordChanged` | PS/hw/fsbl/image_mover.c:997-1026 | changing any one word of a sound header makes it fail |
| `BootHeader.IsLastPartition` | PS/hw/fsbl/image_mover.c:885-901 | recognises exactly the terminator |
| `BootHeader.TerminatorIsValid` | PS/hw/fsbl/image_mover.c:885-949 | the terminator passes as a valid header |
| `BootHeader.GetPartitionCount` | PS/hw/fsbl/image_mover.c:852-864 | the place of the first terminator, or the table size |
| `BootHeader.ValidateHeader` | PS/hw/fsbl/image_mover.c:918-979 | not empty, sound and not too long |
| `BootHeader.ValidExactly` | PS/hw/fsbl/image_mover.c:918-979 | a header is valid if and only if its words add up to all ones and the byte count of its image fits 32 bits or is 2^32: the test for an empty header never decides |
| `BootHeader.FieldsInPlace` | PS/hw/fsbl/image_mover.h:94-123 | of a header laid out word by word and bit by bit the loader reads lengths, addresses, kind, checks and owner where they lie |
| `PartitionLoader.PayloadOf` | PS/hw/fsbl/image_mover.c:1186-1205 | a partition that lies in memory as in flash leads to its data in the clear, decrypted once if encrypted |
| `PartitionLoader.ChecksCoverImage` | PS/hw/fsbl/image_mover.c:466-515 | the checks see every byte of the image if and only if its length is at most the partition length modulo 0x40000000 words |
| `PartitionLoader.Loader.CopyFromFlash` | PS/hw/fsbl/image_mover.c:1090-1113 | a move puts the flash bytes, as many as the wrapped length says, at the target and touches nothing else |
| `PartitionLoader.Loader.TransferToTarget` | PS/hw/fsbl/image_mover.c:1115-1145 | a PCAP transfer puts the data at the target, decrypted once when asked to, and touches nothing else |
| `PartitionLoader.Loader.ProgrammedIsPayload` | PS/hw/fsbl/image_mover.c:1044-1167 | whatever memory held before, the fabric receives the payload if and only if the whole image was moved, or there is none |
| `PartitionLoader.Loader.ProgrammedByte` | PS/hw/fsbl/image_mover.c:525-547 | beyond what was moved, the fabric receives what lay in memory |
| `PartitionLoader.Loader.LongImageIsUnchecked` | PS/hw/fsbl/image_mover.c:466-547 | a valid header of a signed bitstream of which half reaches the fabric unchecked |
| `PartitionLoader.Loader.WrappedLengthIsUnchecked` | PS/hw/fsbl/image_mover.c:474-494 | a partition length whose byte count wraps to zero checks nothing |
| `PartitionLoader.Loader.PartitionMove` | PS/hw/fsbl/image_mover.c:1044-1167 | what has to be checked lies at its target as in flash, as far as it was moved; plain partitions are in place; only bitstreams without checks are loaded; memory outside the target is untouched; it succeeds exactly when its stated number of hardware operations goes well, and fails at the first that does not |
| `PartitionLoader.Loader.CheckedAsInFlash` | PS/hw/fsbl/image_mover.c:466-515 | for every header, the bytes that are checked are those of the flash |
| `PartitionLoader.Loader.DecryptPartition` | PS/hw/fsbl/image_mover.c:1186-1205 | decryption in place |
| `PartitionLoader.Loader.ValidatePartition` | PS/hw/fsbl/image_mover.c:1221-1280 | it passes if and only if the digest could be read and matches the bytes in memory |
| `PartitionLoader.Loader.Check` | PS/hw/fsbl/image_mover.c:466-515 | success means the bytes at the target pass checksum and signature; a failure names the check that they do not pass, or the digest that could not be read |
| `PartitionLoader.Loader.UseVerified` | PS/hw/fsbl/image_mover.c:466-547 | a checked partition is decrypted or programmed once its checks have passed; a failure names the check or operation that failed |
| `PartitionLoader.Loader.UsePartition` | PS/hw/fsbl/image_mover.c:437-557 | for every header: a bitstream is programmed once and only after its checks, with the bytes stated; an application whose image was moved ends in the clear at its load address, decrypted once if encrypted and never otherwise; a failure is the first failing operation with the reason that goes with it, or a check that fails on the bytes in flash |
| `PartitionLoader.Loader.NothingFails` | PS/hw/fsbl/image_mover.c:437-557 | a partition whose operations go well and whose checks hold of the flash bytes cannot fail |
| `PartitionLoader.Loader.Admit` | PS/hw/fsbl/image_mover.c:308-427 | which partitions are used, skipped, end the loading, or are refused and why, from the headers alone |
| `PartitionLoader.Loader.TakeFlags` | PS/hw/fsbl/image_mover.c:350-401 | the flags of a partition; a bitstream behind an application stops the loader |
| `PartitionLoader.Loader.CheckAddress` | PS/hw/fsbl/image_mover.c:408-427 | an application is accepted exactly when it begins in the DDR; loading ends at one with load address zero and no protection; everything else is accepted |
| `PartitionLoader.Loader.NeitherAt` | PS/hw/fsbl/image_mover.c:350-371 | a partition is of neither kind exactly when no header of the loader up to it has a bit set |
| `PartitionLoader.Loader.MovedOutsideDdr` | PS/hw/fsbl/image_mover.c:408-427 | an admitted partition is moved to an address outside the DDR if and only if it is of neither kind, the flash is not linear, and its load address is outside |
| `PartitionLoader.Loader.NeitherIsWrittenAnywhere` | PS/hw/fsbl/image_mover.c:408-457 | a valid first header that is written to address 0x1000 |
| `PartitionLoader.Loader.DoneMore` | PS/hw/fsbl/image_mover.c:308-561 | one more partition keeps the discipline over all partitions before it |
| `PartitionLoader.Loader.LoadPartitions` | PS/hw/fsbl/image_mover.c:300-563 | for every header list: the fabric gets exactly the bitstreams met, in order, once each, and only after their checks passed on the bytes in flash; exactly the encrypted applications are decrypted; applications stay at their load addresses unless loaded over; also on a failure nothing else was programmed. A fallback is blamed on the header, address, operation or check its reason names, and a sound list loads |
| `PartitionLoader.Loader.LoadBootImage` | PS/hw/fsbl/image_mover.c:160-564 | the same from the header table on, which must have a terminator and more than the loader's own partition: a sound image always loads, and each reason for a fallback comes with the operation, table, header, address or check that failed |
| `PartitionLoader.Loader.SoundIsNotBlamed` | PS/hw/fsbl/image_mover.c:300-563 | a sound image cannot be blamed on any of its partitions: soundness and the reasons for a fallback exclude each other |
| `PartitionLoader.Loader.OneAppIsSound` | PS/hw/fsbl/image_mover.c:160-564 | a sound image: the boot loader's partition, a plain application in the DDR and the terminator |
| `PartitionLoader.Loader.BitstreamsOnce` | PS/hw/fsbl/image_mover.c:308-561 | the bitstreams programmed are all those met, each once, in ascending order |
| `PartitionLoader.Loader.NoBitstreamAfterApp` | PS/hw/fsbl/image_mover.c:350-371 | no bitstream is programmed once an application partition has been met |
| `PartitionLoader.Loader.ExecIsFirst` | PS/hw/fsbl/image_mover.c:429-435 | the result is the execution address of the first application |
| `BootSearch.HeaderChecksum` | PS/hw/fsbl/main.c:1325-1357 | passes exactly when the eleven words add up to all ones |
| `BootSearch.Flash.Next` | PS/hw/fsbl/main.c:1405-1482 | the least slot with a valid image from a slot on |
| `BootSearch.NextValidImageCheck` | PS/hw/fsbl/main.c:1405-1482 | finds the least valid image at or after the register's slot and only then writes the register |
| `BootSearch.NoWrapAround` | PS/hw/fsbl/main.c:1467-1475 | as long as the end of the flash can be reached, the masked register does not wrap |
| `BootSearch.SearchEnds` | PS/hw/fsbl/main.c:1405-1482 | the search ends if and only if the register can reach the end of the flash or some slot holds a valid image |
| `Fallback.HuntIsOrdered` | PS/hw/fsbl/main.c:591-692 | only valid images are tried, in strictly increasing order, none twice |
| `Fallback.HuntTriesAll` | PS/hw/fsbl/main.c:591-692 | the loader parks only after every valid image from its start on was tried |
| `Fallback.HuntEnds` | PS/hw/fsbl/main.c:591-786 | a running application is the last image tried |
| `Fallback.HuntOutcome` | PS/hw/fsbl/main.c:591-786 | every attempt before the last one went wrong; the hunt ends with the image of the last attempt exactly if that one runs, and parks otherwise |
| `Fallback.HuntIsShort` | PS/hw/fsbl/main.c:591-692 | fewer attempts are made than there are slots |
| `Fallback.Boot.FsblFallback` | PS/hw/fsbl/main.c:591-692 | the mutual recursion terminates and is the hunt through the valid images behind the current one; the fail mark is left set only for a reset, which moves the register on by one |
| `Fallback.Boot.LoadBootImage` | PS/hw/fsbl/image_mover.c:160-236 | an image that fails to load goes on with the hunt |
| `Fallback.Boot.FsblHandoff` | PS/hw/fsbl/main.c:707-786 | an image that fails to start goes on with the hunt |
| `RsaPadding.RecreatePaddingAndCheck` | PS/hw/fsbl/rsa.c:321-360 | accepts exactly the blocks that are, read backwards, the EMSA-PKCS1-v1_5 encoding of the hash (section 9.2 of RFC 8017), reading each byte once from the last one down |
| `RsaPadding.Expect` | PS/hw/fsbl/rsa.c:333-357 | one comparison extends the matched part by one byte or refutes the block |
| `RsaPadding.OneHash` | PS/hw/fsbl/rsa.c:321-360 | a block is accepted for one hash at most |

## Left out

- SPI, GPIO, AXI and PCAP transport, delays and polling: SPI transfers always succeed, a lock or calibration that the driver waits for is taken as reached unless an outcome is a parameter (`WindowSearch.QuadCal.PhaseSearch`, the `outcomes` of `PartitionLoader.Loader`).
- The calibration formulas, gain tables and their loading, the automatic TX calibration in `ad9361_rfpll_set_rate` (its condition never holds there), digital interface tuning, ENSM transitions, and the end of `ad9361_set_trx_clock_chain` behind the filter enables.
- The synthesiser tables except their VCO_MHz column, which is the same in all six: the other columns are an arbitrary function of table, range and row.
- External LO hooks of the RF PLLs, and the multiplexer between internal and external LO.
- The mult and div fields of `refclk_scale`, which every use recomputes from the registers or the request first.
- `rx_eq_2tx` and different RX and TX FIR factors: modelled in `ClockChain.Solve`, but only its termination and its RX side are proved then, because the code has no clean law for the TX side.
- `do_div`: a division.
- LoClocks.InternalReached: reference rates between 10 and 80 MHz, the range of the synthesisers. A request that equals the cached rate does nothing, so the LO may then be up to 2 away from it, in halved units.
- References.ReferenceReached: reference inputs from 100 Hz up to about 1.7 GHz, above which the doubled rate plus its rounding no longer fits 32 bits.
- EndToEnd.SampleRateIsReached: equal FIR factors of 1, 2 or 4; a BBPLL reference between 5,585,938 Hz, below which the integer word would not fit its byte, and 70 MHz; and no restart of the BBPLL that puts the cache out of step (`Coherence.Safe`).
- LocalOscillator.RunsKeepInvariant: reference rates between 10 and 80 MHz, the range of the synthesisers.
- Kernels.Ilog2: positive operands; zero gives zero. `Dividers` uses the logarithm on numbers, which `Logarithm.Ilog2IsFloorLog2` shows to be the same.
- Bbpll.RegisterRatesAreFixed: requires a reference of at least 4,177,918 Hz; the driver's range starts at 6 MHz. Below it idempotence depends on divisibility, and `Bbpll.SmallReferenceLosesAHertz` gives a case where it fails.
- Nand.NandAccess: does not model failures of `XNandPs_Read`. `XNandPs_IsBlockBad` outside the device is an outcome of its own, because that driver is not part of this model. The masks of the block size, a power of two, are written as quotient and remainder.
- Qspi.Reader.QspiAccess: requests lie inside the flash, and both bank registers are zero when it is called, which it keeps up itself except in the case above. A transfer of the bank commands that fails leaves the register as it was; Winbond devices, for which no bank is ever sent, are left out.
- Md5.Hashed: `doByteSwap` is FALSE, as in every call of the boot loader; the swapping branch is modelled in `Md5.Copy` only.
- PartitionLoader.Loader.LoadBootImage: the header table is given; the signature check of the headers, `rsa2048_pubexp`, `sha_256` and the AES engine are outcomes or uninterpreted functions of the bytes in memory. A failed transfer leaves memory and fabric as they were. Source addresses do not wrap.
- PartitionLoader.Loader.LoadPartitions: what the data are is stated for headers whose whole image is moved (`PartitionLoader.Loader.Complete`); for the others `PartitionLoader.Loader.ProgrammedByte` says what a plain bitstream consists of. With linear flash, a partition of neither kind is checked where it would have been moved to, and then not used; that a sound list loads is therefore stated for lists in which no such partition asks for a check (`PartitionLoader.Loader.ChecksSeeFlash`).
- The watchdog, `FatFs`, NOR and SD access, exception handlers, printing, the API wrappers and the configuration parsers.
- Fallback.Boot.FsblFallback: silicon 1.0, which has no multiboot register, and flashes larger than 0x1FFF times 32 KB, for which the search need not end. FsblHookFallback does not return; a reset of the processor ends the run.
