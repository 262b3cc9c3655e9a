# Verified models of the Atari hardware programs

The repository is a set of small programs for Atari computers that look into the hardware: the PCI
bus with its `pci.ids` database, the SCSI bus, video modes and framebuffers, the keyboard processor
and the joypads. This project models the parts where those programs decide or compute something, and
proves what each of them keeps, over all inputs and all runs. `dafny verify dfyconfig.toml` checks it.

| files | what they model |
|---|---|
| `PciIdsText`, `PciIdsScan`, `PciIdsTree`, `PciNames`, `PciGetname`, `PciIdsSample` | `bus/pcinames.c`: the text of a `pci.ids` file, the six scanners over its buffer, the three name look-ups. A file is the rendering of a tree of entries; chaining the scanners is walking the tree, and in a sorted file looking a path up; a small file character by character |
| `Framebuffer`, `ModeOrder`, `ModeList` | `video/xbios.c`: the list of video modes, kept by a three-stage search, and its counters |
| `Rows`, `Ramps`, `Planar`, `Bar`, `TrueColour`, `Packed`, `Clear` | `video/rgb.c`: memory as rows, clipping and ramps, plotting and shaded bars on interleaved bit planes, true-colour shades, shaded bars on packed pixels byte by byte, clearing on both |
| `Ikbd`, `KeyMonitor`, `KeyPackets`, `KeyResponse` | `common/ikbd.S` and `keyboard/ikbdintr.c`: the packet parser in the interrupt vector, and the polling loop that shares the key table with it; what it reports, how soon, and when it ends |
| `Pci` | `bus/pci.c` and `common/endian.h`: sizing a base register, copying the configuration header, byte order |
| `Teamtap`, `Joypad`, `Wiring` | `joystick/joypad.c`: pad words, the teamtap verdict, what is reported over a run of frames, and by the main loop; where the detection table comes from, and whether its verdicts are right |
| `Scsi` | `bus/scsi.c`: command blocks and the fields that commands split over them |
| `Bits`, `Machine` | numbers as rows of bits, the machine's integers |

Where the code does not do what its documentation or its purpose suggests, the code is modelled as it
is, an input that shows it is given, and the exact condition is proved:

- `ChangeLog:118` says the video mode list is created sorted. The second and third stage of the search
  run past the modes of equal depth and width, so it is not: `ModeOrder.StColourUnsorted` is the call
  sequence of `video/xbios.c:336-337`. `ModeOrder.CallsExactly` says which given sequences of calls create
  a sorted list, `ModeOrder.SortedAtBoundary` for which mode one call keeps it sorted, by looking at one
  place of the list, and `ModeOrder.EveryOrderExactly` for which modes every order of calls does.
- `RGB_ClearRect` on bit planes rounds the start and the width of its rectangle down
  (`Clear.UnalignedRect`, `Clear.RectExactly`). `RGB_ClearScreen` clears the whole screen there exactly
  when its width is a multiple of sixteen or, on a single plane, of eight; otherwise the last planes of
  the last pixels stay (`Clear.ScreenExactly`, `Clear.NarrowScreen`). On packed pixels both clear exactly
  what they are asked to (`Clear.PackedPixels`).
- `RGB_DrawBar` draws the top line of a bar of no height, and a bar of no width can have a span of one
  group (`Bar.EmptyBars`).
- The last column of a shaded bar is one past the ramp, on its top line only. On true-colour screens its
  colour always leaves the component's mask, and so does the pixel stored, unless it is red on 16 or 24
  bits, where nothing of it is stored (`TrueColour.ShadesInMask`).
- `pci_read_mem_size` does not mask the flag bits, so it is right exactly when the highest wired bit
  reads as zero (`Pci.MemSizeExact`); prefetchable memory of 16 bytes is sized as 8
  (`Pci.PrefetchableSixteen`).
- Five rows of the teamtap table have an empty set of ghost keys, which every pad shows: those keys give
  the verdict that there is no teamtap even when no other pad shows anything (`Teamtap.LoneKey`). They are
  the keys of the fourth line, so behind a teamtap a single key is judged right exactly when it is of
  another line (`Wiring.TappedVerdict`); without one, every key is (`Wiring.PlainVerdict`).
- The ghost sets of the teamtap table are what the selector words make of a key on a plain joypad, but
  three of them lack one key (`Wiring.GhostsAreWiring`).
- A counter of video modes is exact only while all depths are known ones (`ModeLists.CountersExact`,
  `ModeLists.SixPlanesMiscounted`).
- A key event that comes before the loop has cleared the one before is lost
  (`KeyMonitor.EveryEventReported`, `KeyResponse.LostRelease`).

## Model

| member | source | states |
|---|---|---|
| PciIdsText.Htoi | bus/pcinames.c:59-70 | the value of a hexadecimal digit, in either case |
| PciIdsText.HexDigits | bus/pcinames.c:59-70 | which characters are the digits |
| PciIdsScan.HitExact | bus/pcinames.c:141-160 | a scanner finds a line exactly when it is an entry of its own rank with the key asked for, reached over passed lines and smaller keys only; so whatever is found matches even in an unsorted file |
| PciIdsScan.EarlyStopExact | bus/pcinames.c:141-160 | stopping at the first greater key finds the same line as a full scan, for every query, exactly when each key's first entry comes after smaller keys only |
| PciIdsScan.EarlyStopHarmless | bus/pcinames.c:219-238 | with ascending keys the early-stopping scan equals the full one |
| PciIdsTree.ScanForest | bus/pcinames.c:166-242 | over any rendered siblings, sorted or not, with their subtrees, blank lines and comments, a scanner misreads no line and finds exactly the sibling that giving up at a greater key leaves to find |
| PciIdsTree.PlacePicks | bus/pcinames.c:184-212 | the line found is the entry line of the node looked up, and its children are ready for the scanner of the next rank behind it, so no entry of another parent can be returned |
| PciIdsTree.DevicePath | bus/pcinames.c:99-242 | for every file of nested entries and every vendor, device, subdevice keys, chaining the scanners is the walk in the tree: the node's entry line if the walk reaches one, nothing if it does not |
| PciIdsTree.ClassPath | bus/pcinames.c:307-520 | the same for class, subclass and programming interface, the class scanner passing over the whole vendor section first |
| PciIdsTree.WalkIsLookup | bus/pcinames.c:141-160 | in ascending trees that walk is the look-up of the node with this path of keys, wherever it is |
| PciNames.SubKeyOrder | bus/pcinames.c:643-689 | one key orders subdevices by subvendor first, then by subdevice |
| PciNames.SearchVendor | bus/pcinames.c:99-164 | reads inside the buffer, ends, and returns the name offset of the line the scanner rules find, or -1 |
| PciNames.SearchDevice | bus/pcinames.c:166-242 | the same below a vendor, stopping at the next one |
| PciNames.SearchSubdevice | bus/pcinames.c:599-693 | the same below a device, with the two identifiers and the separator between them |
| PciNames.SearchClass | bus/pcinames.c:307-376 | the same for class lines |
| PciNames.SearchSubclass | bus/pcinames.c:378-450 | the same below a class |
| PciNames.SearchProgif | bus/pcinames.c:452-520 | the same below a subclass |
| PciGetname.PciDeviceGetname | bus/pcinames.c:244-305 | on any well-formed lines the scanners do not misread, each buffer holds, cut to its size and NUL-terminated, the name on the line its chain of searches reaches, or the default exactly when it reaches none or the device is 0xffff; without a file the result is the error and no buffer changes |
| PciGetname.PciClassGetname | bus/pcinames.c:522-597 | the same for the three levels of a class code: its third, second and first byte, in this order, whatever is above |
| PciGetname.PciSubdeviceGetname | bus/pcinames.c:695-765 | the same for the subvendor, and for a subdevice, looked up only below an existing vendor and device |
| PciGetname.DeviceNames | bus/pcinames.c:244-305 | in a file of nested entries no line is misread and the names are those of the walk; in ascending order, of the nodes with these keys |
| PciGetname.ClassNames | bus/pcinames.c:522-597 | the same for the class section |
| PciIdsSample.SampleText | bus/pcinames.c:99-693 | the notation of a file, tied to its text character by character: six entries of all ranks |
| PciIdsSample.SampleNames | bus/pcinames.c:522-597 | what the look-ups find in it; subclass and programming interface are not mixed up |
| PciGetname.FittedIsCut | bus/pcinames.c:275-281 | what a buffer holds is the name up to its first NUL, or as much as leaves room for one, and zeros |
| PciGetname.CopyName | bus/pcinames.c:269-281 | a copied name is the entry's name up to its newline, a NUL in it, or the space left |
| ModeLists.ModeList.AddMode | video/xbios.c:1033-1077 | the new list is the old one with the new mode inserted where the three stages stop, and that place is returned |
| ModeOrder.NeverTooEarly | video/xbios.c:1042-1062 | on a sorted list no mode from the insertion place on belongs before the new one |
| ModeOrder.SortedExactly | video/xbios.c:1042-1067 | inserting keeps a sorted list sorted if and only if every mode passed in stage 2 has the new depth and every mode passed in stage 3 the new depth and width |
| ModeOrder.SortedAtBoundary | video/xbios.c:1042-1067 | the same by a condition on the two modes around one place of the list, which a caller can check first |
| ModeOrder.StColourUnsorted | video/xbios.c:336-337 | the two calls for the colour ST leave an unsorted list |
| ModeOrder.CallsExactly | video/xbios.c:333-428 | a given sequence of calls gives a sorted list if and only if it starts from a sorted one and every mode fits the list it is added to |
| ModeOrder.AddAllPermutes | video/xbios.c:1033-1077 | after any calls the list is a permutation of the old list and the modes added |
| ModeOrder.OrderKept | video/xbios.c:1064-1067 | two modes already in the list stay in their order through every later call |
| ModeOrder.ComparableSorted | video/xbios.c:1033-1077 | pairwise comparable modes give a sorted list in whatever order they are added |
| ModeOrder.EveryOrderExactly | video/xbios.c:1033-1077 | every order of calls gives a sorted list if and only if the modes are pairwise comparable |
| ModeLists.ModeList.CountBppModes | video/xbios.c:1079-1110 | the counters are the tallies of the list and the eight listings its modes of each depth |
| ModeLists.ModeList.DisplayBppModes | video/xbios.c:1112-1139 | a listing is all modes of its depth in list order, also when it is left out for a zero counter |
| ModeLists.SlotOfLastKnown | video/xbios.c:1084-1100 | a mode is counted where the last known depth up to it is, or in the first counter before there is one |
| ModeLists.CountersConserve | video/xbios.c:1084-1100 | the eight counters add up to the length of the list, whatever its depths |
| ModeLists.CountersExact | video/xbios.c:1084-1100 | each counter is the number of modes of its depth if and only if all depths are known |
| ModeLists.SixPlanesMiscounted | video/xbios.c:1084-1100 | a single mode of six planes is counted as one of a single plane |
| ModeLists.ListingsAreKnown | video/xbios.c:1102-1109 | the listings together are the modes of known depth, each once |
| ModeLists.ListingsPartition | video/xbios.c:1102-1109 | the listings partition the list if and only if all depths are known |
| Ikbd.MouseHeaders | common/ikbd.S:205-208 | the two sign tests accept exactly the four mouse headers |
| Ikbd.MidiTransparent | common/ikbd.S:192-194 | MIDI interrupts change nothing, wherever they fall |
| Ikbd.PacketRoundTrip | common/ikbd.S:189-306 | the bytes of a packet have the packet's effect from the idle state, whatever its payload |
| Ikbd.RoundTrip | common/ikbd.S:189-306 | any packets with any MIDI interrupts between their bytes leave the fold of the packets, and the parser idle |
| Ikbd.MouseMoves | common/ikbd.S:264-292 | a mouse packet moves by its displacements as signed bytes, modulo 2^16 |
| Ikbd.PacketsMean | common/ikbd.S:189-306 | after any packets, with any MIDI in between: the accumulators have moved by the sum of the signed displacements, each table entry is what the last packet of its key says, the buttons and the low joystick byte are the last ones |
| Ikbd.EveryStreamParses | common/ikbd.S:189-306 | every byte stream is whole packets and the start of one more |
| Ikbd.ParseUnique | common/ikbd.S:189-306 | and in only one way |
| Ikbd.VectorTracks | common/ikbd.S:189-306 | after any interrupts the vector says how far into a packet the stream has got, and the key table is that of the whole packets |
| Ikbd.Handlers.Interrupt | common/ikbd.S:189-306 | one interrupt, entered through the vector, makes the step of the parser on table, buttons, accumulators and joystick byte |
| Ikbd.Handlers.OnHeader | common/ikbd.S:189-252 | the first handler: key, mouse header, joystick header or MIDI |
| Ikbd.Handlers.OnMouseX | common/ikbd.S:264-276 | the second mouse byte, sign-extended, is added with 16-bit wrap-around |
| Ikbd.Handlers.OnMouseY | common/ikbd.S:280-292 | the third mouse byte likewise, and the parser is idle again |
| Ikbd.Handlers.OnJoystick | common/ikbd.S:296-306 | only the low byte of the joystick word is written |
| KeyMonitor.RunAccounted | keyboard/ikbdintr.c:54-68 | in every interleaving of interrupts with the loop's single reads and writes, each key's events are accounted for |
| KeyMonitor.ReportsAreEvents | keyboard/ikbdintr.c:54-68 | no report is invented, repeated or out of order |
| KeyMonitor.EventsConserved | keyboard/ikbdintr.c:54-68 | at any moment a key's events are those printed, one about to be, one in the table, and those run over |
| KeyMonitor.EveryEventReported | keyboard/ikbdintr.c:54-68 | when the loop holds nothing of a key back, every event is reported once and in order if and only if none came before the one before it was cleared |
| KeyMonitor.QuitMeansEscape | keyboard/ikbdintr.c:56-62 | the loop ends only after the escape key was really pressed |
| KeyResponse.AnsweredInTime | keyboard/ikbdintr.c:54-68 | from every reachable state, after 771 steps of the loop with no event of the key, whatever other interrupts fall between, the key is clear in the table or the loop has ended |
| KeyResponse.EventsAnswered | keyboard/ikbdintr.c:54-68 | so by then the reports of the key are its events if and only if none was run over, unless the loop has ended |
| KeyResponse.PacketsAnswered | keyboard/ikbdintr.c:54-68 | end to end: the reports of a key left alone that long are the key packets sent for it, exactly when none was run over, unless the loop has ended |
| KeyResponse.EndsAfterEscape | keyboard/ikbdintr.c:54-68 | the loop has ended 768 of its steps after it printed an escape press, whatever interrupts fall between, and never before it printed one |
| KeyResponse.EndsAtEnd | keyboard/ikbdintr.c:54-68 | it ends behind the last entry of the table only |
| KeyResponse.PressedEscapeEnds | keyboard/ikbdintr.c:54-68 | so an escape press ends the loop if no event of that key is run over and the key is then left alone |
| KeyResponse.LostRelease | keyboard/ikbdintr.c:56-62 | a release that comes before the press is cleared is not reported |
| KeyPackets.EventsAreKeyPackets | common/ikbd.S:189-306 | in every interleaving the events a run takes in are exactly the key packets the keyboard sent; no byte of a mouse or joystick packet becomes one |
| KeyPackets.QuitMeansEscapeSent | keyboard/ikbdintr.c:54-68 | so the loop ends only if the packet of a pressed escape key was sent |
| KeyMonitor.Loop.Advance | keyboard/ikbdintr.c:54-68 | running the loop to its next access makes the step of the step system |
| KeyMonitor.Loop.OnInterrupt | common/ikbd.S:231-244 | so does an interrupt in between |
| Planar.Plot | video/rgb.c:336-391 | the memory after plotting, for 2, 4 and 8 planes |
| Planar.PlotDecodes | video/rgb.c:336-391 | every plane bit of every pixel of the line after a plot: the colour's for the pixel plotted, as before for all others |
| Planar.DecodeIs | video/rgb.c:336-391 | which bit of which word a plane of a pixel is: consecutive words, the leftmost pixel highest |
| Planar.PlotRoundTrip | video/rgb.c:336-391 | reading the pixel back gives the colour modulo the number of colours; every other pixel keeps its colour |
| Ramps.ComponentShades | video/rgb.c:192-256 | with 4 or 8 bits a bar's colours do not fall from left to right and stay among the shades of its component; the last column is one past them |
| Ramps.EveryShade | video/rgb.c:192-256 | a bar at least as wide as its ramp shows every shade |
| Ramps.PaletteColour | video/rgb.c:192-256 | the colours in numbers: with 4 bits red is 1 to 5, green 6 to 10, blue 11 to 15, with 8 bits 1 to 85, 86 to 170, 171 to 255 |
| Ramps.BoxHolds | video/rgb.c:147-165 | the clipped corners hold exactly the pixels of the rectangle on the screen, or the nearest row or column |
| Ramps.ClippedSpan | video/rgb.c:147-165 | clipping both ends of a span leaves exactly its columns on the screen, or the nearest one when none is |
| Bar.InitialPitch | video/rgb.c:43 | the initial pitch on bit planes is never more than a line of whole groups of sixteen, and that much exactly for widths that are multiples of sixteen |
| Bar.GroupsFit | video/rgb.c:172-181 | the span is the columns rounded outwards to sixteen, its length is not negative even without columns, and it lies in the line |
| Bar.EmptyBars | video/rgb.c:147-332 | which bars of no height or width draw something, and what: the top line alone, or a group |
| Bar.SpanFits | video/rgb.c:167-181 | everything the bar touches lies in its rows, and they in the memory |
| Bar.DrawBar | video/rgb.c:132-332 | the whole memory after a bar, for every rectangle, also of no width or height; nothing changes when clipping leaves one row or column |
| Bar.BarPixels | video/rgb.c:132-332 | what every plane bit of every pixel of the screen is afterwards: top row, copied span, everything else as before |
| Bar.BarShades | video/rgb.c:132-256 | every pixel of the clipped rectangle but its last column reads back as its shade |
| Bar.BarRanges | video/rgb.c:183-256 | the colour numbers of those pixels: which of 1 to 3, 1 to 15 and 1 to 255 belong to red, green and blue, and the step of each column |
| Bar.BarFrame | video/rgb.c:320-331 | the padding of a row and the memory behind the screen are left alone |
| Clear.ClearRect | video/rgb.c:108-128 | the memory after clearing a rectangle that lies in the memory, also outside the screen |
| Clear.RectWords | video/rgb.c:108-128 | every word of the memory afterwards: zero exactly when one of the rows of the rectangle covers it |
| Clear.ClearScreen | video/rgb.c:88-104 | the memory after clearing the screen, for any width: in each line as many bytes as its bits fill, which may end inside a word |
| Clear.ScreenPixels | video/rgb.c:88-104 | every plane of every pixel of the screen afterwards: zero when its byte is among those cleared, as before otherwise |
| Clear.ScreenFrame | video/rgb.c:88-104 | the words behind those bytes, and behind the screen, are left alone |
| Clear.ScreenExactly | video/rgb.c:98-103 | the whole screen is cleared if and only if its width is a multiple of sixteen or, on one plane, of eight |
| Clear.NarrowScreen | video/rgb.c:98-103 | eight columns on two planes: the first plane is cleared, the second is not |
| Clear.RectPixels | video/rgb.c:108-128 | every pixel of the screen afterwards: zero in the rounded rectangle, as before elsewhere |
| Clear.RectExactly | video/rgb.c:120-123 | the whole rectangle, and nothing but it, is cleared if and only if its start and width are multiples of sixteen |
| Clear.UnalignedRect | video/rgb.c:120-123 | sixteen columns from the ninth on: the eight before them are cleared, their last eight are not |
| Clear.ClearPackedRect | video/rgb.c:116-127 | the bytes after clearing a rectangle of packed pixels that lies in the memory, also outside the screen |
| Clear.PackedBytes | video/rgb.c:116-127 | every byte afterwards: zero exactly when one of the rows of the rectangle covers it |
| Clear.ClearPackedScreen | video/rgb.c:95-103 | the bytes after clearing a packed screen |
| Clear.PackedPixels | video/rgb.c:116-127 | every packed pixel afterwards: zero in the rectangle, however it lies, as before elsewhere |
| TrueColour.FieldInMask | video/rgb.c:258-316 | for any loss and shift, exactly the 8-bit shades stay inside the mask, and the bits kept can be read back |
| TrueColour.MasksFill | video/rgb.c:49-83 | the masks in numbers: red above green above blue, together the bytes of a pixel |
| TrueColour.PitchIsLine | video/rgb.c:43-60 | the initial pitch of packed pixels is a line of them |
| TrueColour.OtherDepths | video/rgb.c:43-81 | any other depth is bit planes without masks, its pitch the bits of a line |
| TrueColour.FieldIs | video/rgb.c:258-316 | the colour of a shade in numbers, for each component and depth |
| TrueColour.InitialChannels | video/rgb.c:49-83 | the masks, losses and shifts of 15, 16, 24 and 32 bits fit together that way |
| TrueColour.ShadesInMask | video/rgb.c:258-316 | every column but the last keeps to its component's mask, is stored whole and reads back as its shade; the colour of the last one always leaves the mask, its stored pixel does unless it is red on 16 or 24 bits |
| Packed.DrawBar | video/rgb.c:132-332 | every byte of the memory after a bar on packed 8, 15, 16, 24 or 32-bit pixels, with any pitch, for every rectangle whose copied length is not negative; nothing changes when clipping leaves one row or column |
| Packed.BarPixels | video/rgb.c:132-332 | every pixel of the screen afterwards: the colours of all columns on the top line, of all but the last on the lines below, as before elsewhere |
| Packed.BarShades | video/rgb.c:223-316 | every pixel of the clipped rectangle but its last column holds its colour in full |
| Packed.BarNumbers | video/rgb.c:223-316 | the same in numbers, for each component on 8, 15, 16, 24 and 32 bits |
| Packed.PixelIs | video/rgb.c:258-316 | the bytes of a pixel, the first one the most significant |
| Packed.BarFrame | video/rgb.c:320-331 | the padding of a line and the bytes behind the screen are left alone |
| Packed.LineFits | video/rgb.c:167-181 | the top line lies in its row, and the rows of the bar in the memory |
| Pci.ReadConfig | bus/pci.c:97-116 | the number of bytes before the first failing read, 0x80 if none, those longs byte-swapped, the rest of the buffer untouched |
| Pci.ConfigRoundTrip | common/endian.h:36-44 | read back with the little-endian macros, each long and each half of it is the device's register |
| Pci.LeInvolutions | common/endian.h:56-63 | both swapping macros undo themselves |
| Pci.StoredBits | bus/pci.c:137-144 | every bit of a register after a write is the one written or the wired one |
| Pci.BaseRegister.ReadMemSize | bus/pci.c:129-163 | the register is left as it was; the result is 0 exactly when the highest of its 32 bits reads as zero or all read as one, otherwise twice the value of the highest bit that does not; and it is the decode size if and only if the highest wired bit is clear |
| Pci.AbsentRegister | bus/pci.c:146-148 | a register that is not there reads as zero and has no size |
| Pci.LongInNumbers | common/endian.h:36-63 | the bytes of a long in memory, and of the long the macro makes of it |
| Pci.WordInNumbers | common/endian.h:36-63 | the same for words |
| Pci.MemSizeExact | bus/pci.c:146-162 | for every register of 2 to 2^31 addresses, the scan gives its size if and only if its highest wired bit reads as zero, and never more |
| Pci.PrefetchableSixteen | bus/pci.c:146-162 | prefetchable memory of 16 bytes is sized as 8 |
| Pci.WiredSizes | bus/pci.c:146-162 | memory of 32 bytes or more, 16 bytes if not prefetchable, and input and output of 4 bytes or more are sized right |
| Pci.LowestBit | bus/pci.c:119-126 | `v & ~(v - 1)` is the lowest bit set |
| Pci.SizesAgree | bus/pci.c:119-126 | for memory registers the disabled sizing function gives the same, less one |
| Teamtap.LoneKey | joystick/joypad.c:284-307 | with the other pads idle one key of the first pad proves a teamtap exactly when its row has no empty set of ghosts; the other rows deny it whatever the pads show |
| Teamtap.GhostsExactly | joystick/joypad.c:284-307 | with a key of the table down, there is no teamtap exactly when one of the other pads shows all of its ghosts, and one otherwise |
| Teamtap.OtherPadProves | joystick/joypad.c:272-282 | keys of another pad while the first is idle prove a teamtap |
| Teamtap.OpenFrames | joystick/joypad.c:270-308 | a frame leaves the question open exactly when no pad is used or the first shows anything but one key of the table |
| Teamtap.VerdictSettles | joystick/joypad.c:373-378 | the verdict leaves MAYBE at most once and never changes afterwards |
| Teamtap.VerdictIsFirstDecision | joystick/joypad.c:373-378 | it is what the first deciding frame says |
| Teamtap.RememberedIsLastReport | joystick/joypad.c:380-463 | the word remembered for a pad is the one last reported |
| Teamtap.ReportsAreChanges | joystick/joypad.c:380-463 | over any run the first pad reports exactly the changes of its word, the other pads theirs up to the verdict that there is no teamtap and nothing from then on |
| Joypad.EveryLineOnce | joystick/joypad.c:58-67 | the selector words ask each port for each of its sixteen lines once, the other port left off |
| Joypad.PackingLossless | joystick/joypad.c:520-546 | the four fire and direction readings of a pad can be taken out of its 24-bit word again, on both ports |
| Joypad.PadBits | joystick/joypad.c:58-67 | every bit of a pad word, from the hardware's answers to the literal selector words, on both ports |
| Joypad.UpdateJoypads | joystick/joypad.c:520-546 | all eight words hold their four lines |
| Joypad.MaskedBits | joystick/joypad.c:195 | the mask drops the three undefined buttons and nothing else |
| Joypad.DetectTeamtap | joystick/joypad.c:270-308 | the verdict of the port becomes what its frame decides, and the other port's is left alone |
| Joypad.ListedAreReports | joystick/joypad.c:380-463 | what is listed at a frame is, pad by pad, what the run reports there |
| Joypad.FollowsStart | joystick/joypad.c:197-231 | open verdicts and zero words are those of a run that has not begun, on both ports |
| Joypad.Watch | joystick/joypad.c:253-264 | the main loop from its first frame on: over the whole session each pad is listed with exactly the words its run reports |
| Joypad.SessionChanges | joystick/joypad.c:253-264 | so the first pad of a port is listed exactly when its masked word changes, and the others are too unless there is no teamtap |
| Joypad.DisplayLogicalValues | joystick/joypad.c:368-463 | verdicts, remembered words and reports follow the run of each port, one frame longer |
| Wiring.GhostsAreWiring | joystick/joypad.c:58-155 | each row of the detection table is the key and what a plain joypad shows for it at the other three pads, through the selector words, but for one key in three of the sets |
| Wiring.PlainVerdict | joystick/joypad.c:270-308 | of a joypad without a teamtap, with any one key held, the verdict is that there is none |
| Wiring.TappedVerdict | joystick/joypad.c:270-308 | of one behind a teamtap the verdict is right exactly when the key is not of the fourth line |
| Scsi.LunByte | bus/scsi.c:266-267 | bits or-ed in below the logical unit do not disturb it |
| Scsi.Cdb6RoundTrip | bus/scsi.c:263-271 | opcode, logical unit, 21-bit address, length and control are read back from a 6-byte command |
| Scsi.Cdb10RoundTrip | bus/scsi.c:273-282 | the same for 10 bytes, the address of 32 bits and the length of 16 |
| Scsi.Decoded10 | bus/scsi.c:219-226 | any 10-byte structure read back, also fields that run over the address's first byte or the reserved byte |
| Scsi.Cdb12RoundTrip | bus/scsi.c:284-292 | the same for 12 bytes, the length of 32 bits |
| Scsi.Read6 | bus/scsi.c:570-580 | its command decodes to the arguments, the address cut to 21 bits |
| Scsi.Read10 | bus/scsi.c:582-594 | its command decodes to the arguments, the three flags beside the logical unit |
| Scsi.Read12 | bus/scsi.c:1567-1579 | the same for 12 bytes |
| Scsi.ReadBuffer | bus/scsi.c:444-458 | buffer number, 24-bit offset, 24-bit length and mode are read back from where the standard has them |
| Scsi.Locate | bus/scsi.c:1067-1080 | the 32-bit address, the partition and the three flags are read back |
| Scsi.PlayAudioMsf | bus/scsi.c:1318-1328 | both three-byte addresses are read back |
| Scsi.ModeSense6 | bus/scsi.c:518-531 | flag, page control and page code are read back |
| Scsi.SendDiagnostic | bus/scsi.c:325-340 | the four flags and the two-byte length are read back |

## Left out

- Loading `pci.ids`, allocation, printing, supervisor calls and driver calls. The file is a parameter, absent when it could not be loaded; what a program prints is a returned or logged sequence.
- PciNames.SearchVendor: like the other scanners, it takes a buffer that is the text of well-formed lines; on other text the inner loops of the source are not bounded.
- PciGetname.PciDeviceGetname: like the other look-ups, it takes a file in which the searches meet no line out of its place, such as a subclass right below a vendor, which a scanner would read as an entry of its own rank.
- PciGetname.ENOSYS: the value is not part of the repository; only its sign is used.
- The loops of the scanners and of the three-stage search, and the loop bodies of the scanners, are methods of their own.
- Framebuffers.InitFramebuffer: the record is a value rather than a structure filled in place, and has no buffer address; `|`, `<<` and `>>` on its fields are the functions of `Bits`.
- Words, bytes and longs are integers in their range. Where fields do not overlap, `|` is written as a sum (pad words, block addresses, the three components of a true-colour pixel); where that is the point, in the second byte of a command, it is `Bits.Or`.
- Bar.DrawBar: 1, 2, 4 or 8 planes, and a pitch of whole words that holds the width rounded up to sixteen; the memory is an array of 16-bit words, that of `Packed` one of bytes. Negative sizes of rectangles.
- Packed.DrawBar: rectangles of no width but several lines inside the screen; there the length the source copies is negative, and `memcpy` takes it for nearly 2^32.
- TrueColour.ShadesInMask: the layouts of `RGB_InitFramebuffer` only, not those set later from the VDI; the bars of `Packed` are drawn with any.
- Clear.ClearRect: rectangles that start left of or above the screen, or leave the memory; the source would write outside it.
- Installing and removing the keyboard handler, the MFP registers and saving of registers.
- KeyMonitor.RunAccounted: each table access is one step; the compiler may not merge them, since the table is volatile.
- Pci.BaseRegister.ReadMemSize: configuration accesses that fail during sizing. A one shifted out of 32 bits gives 0, as on the 68000; C leaves it undefined.
- Pci.SizesAgree: the disabled function is modelled for words with a significant bit.
- `pci_read_mem_base`, which tests a pointer instead of the value.
- Joysticks, lightpens, paddles and raw values of the joypad program: copies and single comparisons.
- Joypad.DisplayLogicalValues: the texts printed for the keys; a report is the pad and its word.
- Scsi.Bytes10: the structures are laid out with the two-byte alignment of the 68000, without padding.
- The SCSI functions whose packing loses or overlaps fields or uses another command's code, and the many that pack like those modelled; the transfer itself.
- The mode list readers of the individual video drivers, the AES and VDI programs, CD-ROM and disk listings.
