# Verified model of the sensor node firmware

The firmware reads a BME680 environment sensor and a DS1302 clock, publishes the
readings over Wi-Fi and keeps them on an SD card while the network is down. This
project models its stateful core in Dafny and proves what that core is for. `dafny
verify dfyconfig.toml` checks everything.

How it is put together:

* **DS1302** (`Ds1302Chip`, `Ds1302Driver`, `Ds1302Clock`, `Bits`). The driver's pin
  loops run against an automaton of the chip: IO is sampled on a rising CLK edge and
  driven on a falling one, least significant bit first, a burst moves on by one cell
  after each byte. The loops refine reads and writes of registers and RAM; date and
  time sit on top. A ghost flag shows that chip and driver never drive the wire at once.
* **BME680** (`Bme680Registers`, `Bme680Model`, `Bme680Cache`, `Bme680Driver`,
  `Bme680Exact`, `Bme680Timing`, `Bme680Compensation`, `Bme680Pressure`). The chip is a
  file of 256 registers behind a bus that may fail at any operation. The driver object is
  proved against a function for each call; the functions carry the results about runs,
  and `Bme680Exact` says what they do in the bits of the registers.
* **Wi-Fi manager** (`WifiManager`, `WifiSteps`, `WifiTask`, `WifiConfig`, `ApFilter`,
  `ScanJson`, `StatusJson`, `Json`, `JsonPrinter`, `CStrings`, `Decimals`). One step
  for each message the task takes and for each event of driver, timers and user; the
  task object refines it, and `WifiSteps` gives the exact next state of every step. The
  list filter works in place on an array. The two JSON texts are read back by a parser
  written from RFC 8259; their buffers are modelled with the memory behind them, because
  the code can write there.
* **Captive portal DNS** (`DnsMessage`, `DnsServer`). The response is read back by a
  parser written from sections 4.1.1 to 4.1.4 of RFC 1035, compression included.
* **Store and forward** (`StoreForward`, `StoreForwardOrder`, `StoreForwardDelivery`,
  `StoreForwardRuns`, `SensorCsv`). A transition system in which network events suspend
  and resume the two tasks between any two of their steps: where a record is at any time,
  in which order records travel, and what gets published.

Where the code does less than its comments or a caller might expect, the model follows
the code, and a lemma says exactly when the promise holds: weekday 0 (Sunday in the
header) is rejected on reading; a heating time above 4095 ms wraps round, while the
comment gives 4032 ms as the maximum; the 99 bytes of a list entry are ten short; an
empty list is not closed; both JSON texts can be written past the end of their buffers,
and the status text can be cut off before that; slots past the filtered list may keep a
hidden network; a retry threshold above 255 is never reached; a save that ends with an
error keeps its lock; an open network is forgotten when the flash was empty; the gas
switch, the settings cache, the interrupted restore, the reset window of the SD card, a
file left on it, the length test and the answer count of the DNS server each have their
condition.

## Model

| member | source | states |
|---|---|---|
| `Ds1302Driver.CommandsSelectTheirCell` | common/ds1302/ds1302.h:17-31 | every command byte the driver can send is decoded by the chip as the intended cell and direction; address 31 is the burst |
| `Ds1302Driver.Ds1302.TransferBegin` | common/ds1302/ds1302.c:383-388 | from an idle chip: CE up, CLK low, the chip waits for a command, nothing stored changes |
| `Ds1302Driver.Ds1302.TransferEnd` | common/ds1302/ds1302.c:394-397 | the chip is idle again and its memory untouched |
| `Ds1302Driver.Ds1302.WriteAddrCmd` | common/ds1302/ds1302.c:404-430 | the pin loop delivers the command byte; after a read command CLK stays high and the IO wire is released before the chip drives it |
| `Ds1302Driver.Ds1302.WriteByte` | common/ds1302/ds1302.c:437-455 | the pin loop stores exactly the byte in the cell under the cursor |
| `Ds1302Driver.Ds1302.ReadByte` | common/ds1302/ds1302.c:462-484 | the pin loop returns the stored byte, moves a burst on by one cell and changes nothing |
| `Ds1302Driver.ShiftIn` | common/ds1302/ds1302.c:466-480 | shifting bits in from the top, least significant first, assembles the byte |
| `Ds1302Driver.Ds1302.WriteClockRegister` | common/ds1302/ds1302.c:350-356 | a single clock write stores in that register only; no bus contention |
| `Ds1302Driver.Ds1302.ReadClockRegister` | common/ds1302/ds1302.c:365-375 | a single clock read returns the register and changes nothing |
| `Ds1302Driver.Ds1302.WriteByteRam` | common/ds1302/ds1302.c:275-281 | a RAM write stores in the addressed cell; address 31 turns into a burst and lands in cell 0 |
| `Ds1302Driver.Ds1302.ReadByteRam` | common/ds1302/ds1302.c:312-322 | a RAM read returns the addressed cell and changes nothing |
| `Ds1302Driver.Ds1302.WriteBufferRam` | common/ds1302/ds1302.c:294-303 | a burst write replaces exactly RAM cells 0 to n-1, n cut to 31, by the buffer |
| `Ds1302Driver.Ds1302.ReadBufferRam` | common/ds1302/ds1302.c:331-340 | a burst read copies cells 0 to n-1 to the buffer, leaves the rest of it and the chip alone |
| `Ds1302Driver.Ds1302.WriteAll` | common/ds1302/ds1302.c:298-302 | the loop of a burst write is the abstract run of stores, for any number of bytes |
| `Ds1302Driver.Ds1302.ReadBuffer` | common/ds1302/ds1302.c:493-499 | the loop of a burst read gives the cells in order, for any number of bytes |
| `Ds1302Chip.RamBurst` | common/ds1302/ds1302.c:294-303 | an abstract burst of stores is one replaced slice of the RAM, or nothing when protected |
| `Ds1302Chip.ClockBurst` | common/ds1302/ds1302.c:156-166 | an eight-byte clock burst replaces registers 0 to 7 and keeps the trickle charger |
| `Ds1302Chip.LoadAfterStore` | common/ds1302/ds1302.c:275-375 | a stored byte reads back; every other cell keeps its value |
| `Ds1302Clock.BcdRoundTrip` | common/ds1302/ds1302.c:508-525 | decoding an encoded number gives it back below 160, which covers two decimal digits, and 160 less above |
| `Ds1302Clock.SetDateTime` | common/ds1302/ds1302.c:148-167 | the pin transfer leaves exactly the memory that the setting stands for; its registers are those of SetRegisters and SettingClearsControl |
| `Ds1302Clock.SetRegisters` | common/ds1302/ds1302.c:148-167 | for every date-time the chip can hold and every unprotected chip: what each register then holds, the two decimal digits of each field, the halt bit as before, the control register zero |
| `Ds1302Clock.SettingClearsControl` | common/ds1302/ds1302.c:165 | after any setting, of the date or of the time, the control register is zero and the chip still writable |
| `Ds1302Clock.LaterSettingTakesEffect` | common/ds1302/ds1302.c:148-233 | so a later setting reads back, whatever date or time was set before it |
| `Ds1302Clock.GetDateTime` | common/ds1302/ds1302.c:174-216 | the reading is the decoded registers, or false and all zeros when a field is out of range |
| `Ds1302Clock.ReadingIsRegisters` | common/ds1302/ds1302.c:174-216 | which register each field is read from, and the exact range each field must be in |
| `Ds1302Clock.SetTime` | common/ds1302/ds1302.c:224-233 | the stored date is read, patched and written back |
| `Ds1302Clock.DateTimeRoundTrip` | common/ds1302/ds1302.c:148-216 | for every chip and date-time: reading back gives it unchanged if and only if it is in range, 2000 to 2099, weekday 1 to 7; on a protected chip, if and only if it was stored already |
| `Ds1302Clock.HaltBitKept` | common/ds1302/ds1302.c:152-158 | the halt bit survives setting the date unless the seconds value itself reaches bit 7 of an unprotected chip; RAM and trickle charger untouched |
| `Ds1302Clock.SundayIsRejected` | common/ds1302/ds1302.h:62 | weekday 0, documented as Sunday, makes every later reading fail; a protected chip reads as before |
| `Ds1302Clock.SetTimeKeepsDate` | common/ds1302/ds1302.c:224-233 | setting the time changes only hour, minute and second if and only if the stored date was readable and the time valid; on a protected chip, if and only if it shows that time already |
| `Ds1302Clock.SetTimeOnUnreadableDate` | common/ds1302/ds1302.c:224-233 | on an unreadable stored date nothing reads back afterwards, protected or not |
| `Ds1302Clock.Halt` | common/ds1302/ds1302.c:101-121 | only the halt bit changes, to what was asked; nothing on a protected chip |
| `Ds1302Clock.WriteProtect` | common/ds1302/ds1302.c:72-75 | the protection becomes what was asked, whatever it was; all other cells keep their values |
| `Ds1302Clock.IsWriteProtected` | common/ds1302/ds1302.c:83-93 | reports the protection and changes nothing |
| `Ds1302Clock.Begin` | common/ds1302/ds1302.c:30-64 | starts the clock without touching the stored date; false exactly when the chip was halted and protected |
| `JsonPrinter.PrintString` | common/wifi_manager/src/json.c:35-142 | for every NUL-terminated input: the buffer holds the quoted, escaped text from start on, NUL behind it, every byte further back untouched; missing pointers are refused |
| `JsonPrinter.LengthPass` | common/wifi_manager/src/json.c:62-76 | the length pass counts the characters and the escape bytes of the text |
| `JsonPrinter.WritePass` | common/wifi_manager/src/json.c:93-137 | the write pass ends exactly where the length pass says |
| `JsonPrinter.EscapedLength` | common/wifi_manager/src/json.c:76 | printed length = input length + escape count, plus two quotes |
| `JsonPrinter.ShortEscapes` | common/wifi_manager/src/json.c:109-127 | the seven characters with an escape of their own and what is printed for them |
| `JsonPrinter.OtherEscapes` | common/wifi_manager/src/json.c:131-135 | every other character below the blank is printed as six, in lower-case hexadecimal, the rest as themselves |
| `Json.QuotedParses` | common/wifi_manager/src/json.c:93-139 | unescaping by section 7 of RFC 8259 gives the input back and stops behind the closing quote |
| `Json.PrintParses` | common/wifi_manager/src/wifi_manager.c:472-500 | for every value: parsing its printed text gives the value and stops where it ended |
| `ApFilter.FilterUnique` | common/wifi_manager/src/wifi_manager.c:844-905 | for every array: the prefix is the functional result, the count its length, and each slot past it is cleared or keeps its nameless record |
| `ApFilter.MergeDuplicates` | common/wifi_manager/src/wifi_manager.c:852-874 | the first loop nest clears repetitions and leaves the strongest signal at the first record of each network |
| `ApFilter.AbsorbLater` | common/wifi_manager/src/wifi_manager.c:861-873 | the inner loop against the state of every slot |
| `ApFilter.Compact` | common/wifi_manager/src/wifi_manager.c:876-904 | the first-free cursor loop is a stable compaction |
| `ApFilter.MoveToFree` | common/wifi_manager/src/wifi_manager.c:888-901 | a named record moves to the free slot and the cursor to the next free one |
| `ApFilter.FindFree` | common/wifi_manager/src/wifi_manager.c:893-900 | the search from the start of the list finds the first free slot |
| `ApFilter.UniqueIsFirstOfEachNetwork` | common/wifi_manager/src/wifi_manager.c:844-905 | the result is the first record of every named (SSID, authmode) pair in scan order, signal raised to the maximum of the pair, other fields unchanged |
| `ApFilter.UniqueCoversEveryNetworkOnce` | common/wifi_manager/src/wifi_manager.c:844-905 | no network twice, and every named record is represented with a signal at least as strong |
| `ApFilter.UniqueInFields` | common/wifi_manager/src/wifi_manager.c:864-869 | in SSID, mode and signal alone: no two results agree in SSID and mode, every named record has one that does with a signal at least as strong, and each signal was measured for that SSID and mode |
| `ApFilter.UniquePositions` | common/wifi_manager/src/wifi_manager.c:852-874 | each result is, but for its signal, the first scanned record with its SSID and mode, and the results are in scan order |
| `ApFilter.StrongestIsMax` | common/wifi_manager/src/wifi_manager.c:867-869 | the signal is an upper bound of the network and attained |
| `ApFilter.UniqueNonEmpty` | common/wifi_manager/src/wifi_manager.c:844-905 | the list is non-empty if and only if some scanned record has a name |
| `ApFilter.LeftoverIsClear` | common/wifi_manager/src/wifi_manager.c:879-891 | a slot past the result is all zeros if and only if its record was named or zero: hidden networks stay |
| `ApFilter.HiddenNetworkStays` | common/wifi_manager/src/wifi_manager.c:879-887 | an example of a slot past the result that is not cleared |
| `ScanJson.GenerateList` | common/wifi_manager/src/wifi_manager.c:472-500 | for every list: the memory from the start of the buffer on holds the whole text, past the end of the buffer if need be, and nothing behind the text is touched |
| `ScanJson.ListDecodes` | common/wifi_manager/src/wifi_manager.c:472-500 | every non-empty list is one JSON text that decodes to exactly its records in order |
| `ScanJson.ListFields` | common/wifi_manager/src/wifi_manager.c:481-495 | what a reader finds under ssid, chan, rssi and auth of each item: name, channel, signal and mode of that record |
| `ScanJson.EmptyListIsUnclosed` | common/wifi_manager/src/wifi_manager.c:475-500 | an empty list is an unclosed bracket and not JSON |
| `ScanJson.ScanTextDecodes` | common/wifi_manager/src/wifi_manager.c:1046-1047 | filter and printer together: the text decodes to the unique networks if and only if the scan has a named one |
| `ScanJson.ScanDone` | common/wifi_manager/src/wifi_manager.c:1042-1048 | for every scan the handler leaves the unique networks in the records and their text in memory; inside the buffer if and only if what varies in them takes few enough bytes |
| `ScanJson.FitsIff` | common/wifi_manager/src/wifi_manager.c:194 | text and NUL lie in the allocated buffer if and only if the varying bytes plus 37 for each entry are at most 1487 |
| `ScanJson.RenderedLength` | common/wifi_manager/src/wifi_manager.c:472-500 | the exact length of the list |
| `ScanJson.ListFits` | common/wifi_manager/src/wifi_manager.c:194 | up to fifteen entries with at most 62 varying bytes each never overrun the buffer |
| `ScanJson.EntryLength` | common/wifi_manager/src/wifi_manager.h:155-164 | the exact length of an entry, its SSID escaped; it fits its 99 bytes if and only if at most 62 of them vary |
| `ScanJson.SlotIsTenShort` | common/wifi_manager/src/wifi_manager.h:155-164 | the worst entry takes 109 bytes, ten more than documented, and fifteen of them overrun the buffer |
| `StatusJson.GenerateIpInfo` | common/wifi_manager/src/wifi_manager.c:415-466 | for every SSID: up to 148 escaped bytes the text cut to the buffer and nothing behind it touched; with 149 the SSID alone, one byte too long; beyond, the size wraps round and the whole text goes past the end |
| `StatusJson.WhatIsAppended` | common/wifi_manager/src/wifi_manager.c:430-459 | what the unsigned size makes of the rest: cut, nothing, or all of it |
| `StatusJson.SsidFitsIff` | common/wifi_manager/src/wifi_manager.c:427-431 | the quoted SSID leaves room in the buffer if and only if it takes at most 148 bytes with its escapes |
| `StatusJson.ControlCharactersOverrun` | common/wifi_manager/src/wifi_manager.c:427-431 | twenty-five control characters are written past the end of the buffer |
| `StatusJson.NeverTruncated` | common/wifi_manager/src/wifi_manager.h:166-179 | an SSID of at most 32 bytes without a \u escape, any addresses and reason: complete |
| `StatusJson.CompleteIff` | common/wifi_manager/src/wifi_manager.h:166-179 | for every SSID: complete if and only if the varying parts take at most 109 bytes |
| `StatusJson.BoundIsReached` | common/wifi_manager/src/wifi_manager.h:166-179 | 32 quotation marks and full addresses fill the buffer to the last byte |
| `StatusJson.ControlCharactersTruncate` | common/wifi_manager/src/wifi_manager.h:166-179 | eleven control characters already do not fit, so the documented worst case is not the worst |
| `StatusJson.StatusDecodes` | common/wifi_manager/src/wifi_manager.c:422-459 | the complete text decodes to the ssid, ip, netmask, gw and urc it was made from |
| `StatusJson.StatusFields` | common/wifi_manager/src/wifi_manager.c:422-459 | what a reader finds in the text: the SSID, the reason as 0 to 3, and addresses that read back octet by octet, or "0" without a connection |
| `StatusJson.QuadParses` | common/wifi_manager/src/wifi_manager.c:440-452 | an independent reader of dotted decimals gets the four octets back |
| `DnsServer.Serve` | common/wifi_manager/src/dns_server.c:123-172 | one turn on any datagram: the bytes sent are the query with its header turned and 16 answer bytes; nothing for a failed receive; a full buffer gets its terminator right behind it; 1 to 11 bytes make the length of a copy negative |
| `DnsServer.GuardIsSafeIff` | common/wifi_manager/src/dns_server.c:128-147 | what passes the length test stays inside the buffers if and only if it is not 1 to 11 bytes long and not 80 |
| `DnsServer.Sanitize` | common/wifi_manager/src/dns_server.c:150-155 | the name loop stays inside the query buffer; behind the header unprintable bytes may become dots, nothing else changes |
| `DnsServer.ResponseHeader` | common/wifi_manager/src/dns_server.c:132-143 | parsed header: same ID and question count, QR and AA set, opcode, TC, RD and rcode zero |
| `DnsServer.RestIsEchoed` | common/wifi_manager/src/dns_server.c:131-146 | the reserved header bits and everything behind the header are those of the query |
| `DnsServer.AnswerParses` | common/wifi_manager/src/dns_server.c:159-166 | the added record, its compressed name resolved, is the A/IN record of the first question's name with the address |
| `DnsServer.SingleQuestionAnswered` | common/wifi_manager/src/dns_server.c:128-168 | every query with one question and no records gets one complete message with exactly that answer, 16 bytes longer |
| `DnsServer.WellFormedIff` | common/wifi_manager/src/dns_server.c:141-147 | for every well-formed query: the response parses if and only if the query's records number one less than its questions |
| `DnsMessage.NameStable` | common/wifi_manager/src/dns_server.c:146-161 | names parsed in the query, compressed ones included, parse the same inside the longer response |
| `Bme680Timing.HeaterDuration` | common/bme680/bme680.c:503-513 | the loop computes mantissa and multiplier, cut to eight bits |
| `Bme680Timing.GreatestRepresentableIff` | common/bme680/bme680.c:490-513 | the programmed time is the greatest representable one not above the request if and only if the request is at most 4095; the error is below one multiplier unit |
| `Bme680Timing.NeverLonger` | common/bme680/bme680.c:503-513 | for every 16-bit request the chip never heats longer |
| `Bme680Timing.WrapsAt4096` | common/bme680/bme680.c:497-512 | a request of 4096 ms is programmed as 16 ms |
| `Bme680Timing.MantissaBounds` | common/bme680/bme680.c:507-511 | the mantissa is the request divided by the multiplier, rounded down, and at least 16 once scaled |
| `Bme680Timing.MeasurementDuration` | common/bme680/bme680.c:692-738 | the tick count covers the phase sum plus 5 ms plus one tick and exceeds that by less than one more tick; no 32-bit overflow |
| `Bme680Timing.WaitCoversProgrammedHeating` | common/bme680/bme680.c:692-738 | the wait also covers the heating time really programmed |
| `Bme680Cache.CacheAgreesOverRuns` | common/bme680/bme680.c:846-1009 | over every run without bus failure the rates, filter, profile, durations and resistances in the cache are those in the chip |
| `Bme680Cache.CacheAgreesAfterInit` | common/bme680/bme680.c:581-664 | the same over every run that follows a successful initialisation |
| `Bme680Cache.CallAgreesIff` | common/bme680/bme680.c:846-1009 | for every call, argument and point of failure: cache and chip agree afterwards if and only if no write that mattered was lost |
| `Bme680Cache.StepAgreesIff` | common/bme680/bme680.c:846-1009 | the same for every step, changes of the chip's own included |
| `Bme680Cache.StepAgrees` | common/bme680/bme680.c:846-1009 | each call that reports no bus failure, and each change of the chip's own, keeps the agreement |
| `Bme680Cache.InitAgrees` | common/bme680/bme680.c:581-664 | a successful initialisation establishes it, gas switch included |
| `Bme680Exact.AgreesInBits` | common/bme680/bme680.c:846-1009 | what agreement means on the chip: which bits of which registers hold each setting, codes included |
| `Bme680Exact.WaitCodes` | common/bme680/bme680.c:503-513 | the byte for every 16-bit heating time, range by range |
| `Bme680Exact.EditsKeepOtherBits` | common/bme680/bme680.c:263-274 | every edit of a register keeps the bits outside its field |
| `Bme680Exact.UseExactly` | common/bme680/bme680.c:960-983 | the gas register after an activation: the number of the profile, and bit 4 if and only if it has a temperature and a duration |
| `Bme680Exact.AmbientExactly` | common/bme680/bme680.c:985-1009 | the cached ambient temperature is the requested one modulo 256, from -128 to 127 |
| `Bme680Exact.InitExactly` | common/bme680/bme680.c:581-664 | the settings after a successful initialisation, and the chip it succeeded on |
| `Bme680Cache.SwitchFollowsActivations` | common/bme680/bme680.c:926-983 | over every run without bus failure the gas switch is what the profile was when last activated, so it agrees with the settings if and only if the active profile is as enabled now as then |
| `Bme680Cache.GasSwitchStaleIff` | common/bme680/bme680.c:926-983 | from agreement, one call makes the switch stale if and only if it rewrites the active profile between enabled and disabled |
| `Bme680Cache.ClearedProfileKeepsMeasuring` | common/bme680/bme680.c:926-983 | clearing the active temperature leaves the chip measuring, and re-activating is skipped |
| `Bme680Cache.LostWriteIsNotRetried` | common/bme680/bme680.c:846-1009 | after any call that lost a write that mattered, repeating it reports success and does nothing, if and only if it is not an ambient temperature beyond eight bits |
| `Bme680Cache.ProtocolKeepsConfiguration` | common/bme680/bme680.c:263-336 | mode changes and status reads touch no setting |
| `Bme680Cache.ProtocolBalanced` | common/bme680/bme680.c:284-336 | over every run, whatever fails: starts = consumed + in flight, fetches at most consumed, each consumed one seen as new data after its start |
| `Bme680Cache.StepBalanced` | common/bme680/bme680.c:666-684 | each single step keeps that account |
| `Bme680Cache.OnlyFetchEndsMeasurement` | common/bme680/bme680.c:284-312 | a measurement ends only in a fetch that saw the new-data bit |
| `Bme680Exact.ForceExactly` | common/bme680/bme680.c:666-684 | a start succeeds if and only if none is pending and the bus holds; the two mode bits become one, nothing else in the registers changes |
| `Bme680Exact.FetchExactly` | common/bme680/bme680.c:284-312 | the error of every fetch from the last status, the chip's status register and the bus: refused, still measuring, no data, bus failure or success |
| `Bme680Driver.Bme680.SetOversamplingRates` | common/bme680/bme680.c:846-897 | settings, registers, bus use and error of the call, for every point of failure |
| `Bme680Driver.Bme680.SetFilter` | common/bme680/bme680.c:899-924 | the same for the filter |
| `Bme680Driver.Bme680.SetProfile` | common/bme680/bme680.c:926-958 | the same for a heater profile; an index above 9 is refused |
| `Bme680Driver.Bme680.UseProfile` | common/bme680/bme680.c:960-983 | the same for activating a profile |
| `Bme680Driver.Bme680.SetAmbientTemperature` | common/bme680/bme680.c:985-1009 | the same for the ambient temperature: all ten resistances are rewritten in one block |
| `Bme680Driver.Bme680.ForceMode` | common/bme680/bme680.c:263-274 | read-modify-write of the mode |
| `Bme680Driver.Bme680.Force` | common/bme680/bme680.c:666-684 | a running measurement is refused; success forgets the cached status |
| `Bme680Driver.Bme680.PollBusy` | common/bme680/bme680.c:740-755 | busy is what the chip says, and its status is cached |
| `Bme680Driver.Bme680.Fetch` | common/bme680/bme680.c:284-336 | data only after bit 7 of the status; each of the eight values comes from its own data registers 0x1f to 0x2b, the profile from the status; each way to fail |
| `Bme680Driver.Bme680.Init` | common/bme680/bme680.c:581-664 | reset, identification, defaults, for every point of failure |
| `Bme680Driver.Bme680.WaitTicks` | common/bme680/bme680.c:692-738 | the wait covers wake-up, 2300 microseconds a sample, the switching times and the heating of an enabled profile, plus 5 ms and a tick, and exceeds that by less than one more tick |
| `Bme680Compensation.TemperatureExactly` | common/bme680/bme680.c:350-356 | for every calibration and reading: the formula in the reading and the three calibration values, plus 409.60 or 51.20 degrees for a negative product, cut to 16 bits |
| `Bme680Compensation.TemperatureCorrectIff` | common/bme680/bme680.c:350-356 | the result is the integer formula if and only if neither product is negative and it fits |
| `Bme680Compensation.CorrectFromZeroUp` | common/bme680/bme680.c:350-356 | with the usual calibration signs: correct if and only if the reading is at least 16 par_t1 |
| `Bme680Compensation.JustBelowZero` | common/bme680/bme680.c:350-356 | one step below, 0.00 is reported as -245.76 degrees |
| `Bme680Compensation.RoomTemperature` | common/bme680/bme680.c:350-356 | an example: reading 500000 with an ordinary calibration is 25.89 degrees |
| `Bme680Compensation.TemperatureMonotone` | common/bme680/bme680.c:350-356 | from there up the temperature is monotone in the reading |
| `Bme680Pressure.PressureDefined` | common/bme680/bme680.c:379-404 | inside explicit bounds no 32-bit step overflows, the divisor is not zero, and the result is the unbounded formula |
| `Bme680Pressure.BranchesAgree` | common/bme680/bme680.c:391-394 | for every divisor the two orders of division differ by at most one |
| `Bme680Pressure.UncorrectedFalls` | common/bme680/bme680.c:389-394 | a larger reading never means a higher uncorrected pressure by more than one unit |
| `Bme680Pressure.BranchSwitchDips` | common/bme680/bme680.c:391-394 | the one unit is real at the switch between the branches |
| `Bme680Pressure.ZeroSensitivity` | common/bme680/bme680.c:388-394 | par_p1 = 0 divides by zero whatever is read |
| `Bme680Pressure.OrdinaryPressure` | common/bme680/bme680.c:379-404 | an example: an ordinary calibration, temperature and reading give 91141 pascal |
| `WifiConfig.Store.Save` | common/wifi_manager/src/wifi_manager.c:221-326 | for every set of failing operations: which keys are written, the error, and whether the lock stays taken |
| `WifiConfig.NothingFails` | common/wifi_manager/src/wifi_manager.c:247-318 | without a failure each differing key is written; the lock stays taken if and only if nothing differs and no settings were stored |
| `WifiConfig.SavedUnlessOperationFails` | common/wifi_manager/src/wifi_manager.c:240-318 | for every set of failing operations: the flash holds the configuration if and only if no read or write of a differing key fails, nor a write before it |
| `WifiConfig.Store.FetchConfig` | common/wifi_manager/src/wifi_manager.c:328-408 | for every set of failing operations: memory cleared and filled as far as the keys can be read; found if and only if all can and the SSID is not empty |
| `WifiConfig.SavedKeyByKey` | common/wifi_manager/src/wifi_manager.c:240-318 | each of the three keys after a save, for every set of failing operations |
| `WifiConfig.LockStaysIff` | common/wifi_manager/src/wifi_manager.c:240-318 | the lock stays taken if and only if the save opened the flash, failed no write and ended on an error of the commit, of the last read, or on missing settings |
| `WifiConfig.FetchFindsIff` | common/wifi_manager/src/wifi_manager.c:328-408 | found if and only if all three keys can be read and are stored and the SSID is not empty; then memory and flash are the same |
| `WifiConfig.FetchFillsInOrder` | common/wifi_manager/src/wifi_manager.c:328-408 | a fetch that ends early has filled the memory up to the key that is missing, and cleared the rest |
| `WifiConfig.SaveHolds` | common/wifi_manager/src/wifi_manager.c:247-303 | after a save the flash says what the memory says |
| `WifiConfig.SecondSaveWritesNothing` | common/wifi_manager/src/wifi_manager.c:247-303 | a second save finds nothing to write |
| `WifiConfig.SaveIsOverwriteIff` | common/wifi_manager/src/wifi_manager.c:247-303 | equal to an unconditional write if and only if no key is both missing and blank and no static address changed behind equal settings |
| `WifiConfig.FetchAfterSaveIff` | common/wifi_manager/src/wifi_manager.c:328-408 | fetch after save finds the configuration if and only if SSID, password and settings are not blank or were stored |
| `WifiConfig.OpenNetworkIsForgotten` | common/wifi_manager/src/wifi_manager.c:262-275 | an open network saved on a fresh flash is not found at the next start |
| `WifiConfig.StaticAddressIsNotSaved` | common/wifi_manager/src/wifi_manager.c:279-286 | a changed static address alone is not saved |
| `WifiManager.RetriesCountLosses` | common/wifi_manager/src/wifi_manager.c:1247-1262 | for every value of the build option, over every run: the eight-bit counter is the number of uncovered losses since the last address, modulo its period, which is the threshold plus one up to 255 and 256 beyond |
| `WifiManager.ThresholdStartsAp` | common/wifi_manager/src/wifi_manager.c:1247-1262 | over every run a lost connection orders the access point exactly when its number is a multiple of the period, and never with a threshold of 256 or more |
| `WifiManager.ThresholdHoldsIff` | common/wifi_manager/src/wifi_manager.c:947-1262 | the access point is ordered on exactly every (threshold + 1)-th loss in a row if and only if the threshold is at most 255; beyond it never is |
| `WifiManager.RetryStep` | common/wifi_manager/src/wifi_manager.c:1201-1262 | what each step does to the counter, its wrap-around included |
| `WifiManager.OnlyLossesRetry` | common/wifi_manager/src/wifi_manager.c:1201-1245 | only an unrequested loss advances the counter or arms the retry timer |
| `WifiManager.EraseSafety` | common/wifi_manager/src/wifi_manager.c:1213-1232 | in every run prefix: erasures + pending disconnect bit <= processed disconnect orders |
| `WifiManager.OrdersComeFromUser` | common/wifi_manager/src/wifi_manager.c:170-178 | over every run: user orders processed + those still queued = the times the user asked |
| `WifiManager.EraseNeedsUser` | common/wifi_manager/src/wifi_manager.c:1213-1232 | the configuration is erased at most as often as the user asked to disconnect |
| `WifiManager.FailuresNeedUser` | common/wifi_manager/src/wifi_manager.c:1202-1212 | disconnections taken for a failed user attempt are at most as many as the user's connection requests |
| `WifiManager.PendingStep` | common/wifi_manager/src/wifi_manager.c:1371-1378 | the disconnect bit is set by an order and cleared by the erasure only |
| `WifiManager.FlashChangesOnlyOnPurpose` | common/wifi_manager/src/wifi_manager.c:1201-1332 | the flash changes only on an address not from a restore or on an ordered erasure, and then agrees with the memory if and only if no failing operation keeps a differing key from it |
| `WifiManager.AddressMeansSaved` | common/wifi_manager/src/wifi_manager.c:1326-1332 | over every undisturbed run, after each processed address flash and memory agree, although a restored connection skips the save |
| `WifiManager.FlashHoldsWhileRestoring` | common/wifi_manager/src/wifi_manager.c:1084-1117 | over every undisturbed run they agree as long as a restore attempt is outstanding |
| `WifiManager.AddressSavesIff` | common/wifi_manager/src/wifi_manager.c:1326-1332 | in any state, with any failing operations: an address leaves flash and memory in agreement if and only if the save reaches every differing key, or a restore skips it and none differs |
| `WifiManager.LockKeptIff` | common/wifi_manager/src/wifi_manager.c:237-318 | a step leaves the lock of the flash taken if and only if it saves and that save ends with an error after its last key, or it was taken before |
| `WifiManager.LockedFlashIsFrozen` | common/wifi_manager/src/wifi_manager.c:237-318 | over every run from a kept lock on, the flash never changes again |
| `WifiManager.BlockedForEver` | common/wifi_manager/src/wifi_manager.c:1028-1390 | a task that waits for its own lock takes no further message in any run |
| `WifiManager.WorkingFlashNeverBlocks` | common/wifi_manager/src/wifi_manager.c:305-318 | over every run with a flash in working order and settings that are not all zero the lock is never kept |
| `WifiManager.InterruptedRestoreIsNotSaved` | common/wifi_manager/src/wifi_manager.c:1106-1117 | new credentials entered during a restore attempt connect and are never saved |
| `WifiSteps.ShutdownTimerMeansAddress` | common/wifi_manager/src/wifi_manager.c:1196-1363 | over every run the access-point shutdown timer runs if and only if some step took an address with the access point up, and no later one took a disconnection or was the timer firing |
| `WifiSteps.ShutdownStep` | common/wifi_manager/src/wifi_manager.c:1196-1363 | the shutdown timer after any step from any state |
| `WifiSteps.RestoreStep` | common/wifi_manager/src/wifi_manager.c:1116-1328 | the restore bit after any step from any state |
| `WifiSteps.TakenExactly` | common/wifi_manager/src/wifi_manager.c:1028-1032 | the message a step takes: the front of the queue, unless its handler needs the lock the task has kept |
| `WifiSteps.AddressExactly` | common/wifi_manager/src/wifi_manager.c:1315-1363 | the whole next state after an address, the flash and its lock apart; the shutdown timer starts if the access point is up |
| `WifiSteps.AttemptExactly` | common/wifi_manager/src/wifi_manager.c:1196-1212 | the whole next state after a failed attempt of the user |
| `WifiSteps.ErasureExactly` | common/wifi_manager/src/wifi_manager.c:1196-1232 | the whole next state after a disconnection the user asked for, the flash and its lock apart |
| `WifiSteps.LossExactly` | common/wifi_manager/src/wifi_manager.c:1196-1262 | the whole next state after a lost connection |
| `WifiSteps.LoadExactly` | common/wifi_manager/src/wifi_manager.c:1082-1092 | the whole next state after the order to load: what the fetch finds, and the order that follows from it |
| `WifiSteps.RequestExactly` | common/wifi_manager/src/wifi_manager.c:1035-1388 | the other messages set at most one bit each |
| `WifiSteps.FlashStep` | common/wifi_manager/src/wifi_manager.c:1196-1332 | flash and lock after any step: an address that was not restored saves the memory, an erasure saves the empty configuration, nothing else touches them |
| `WifiSteps.DriverExactly` | common/wifi_manager/src/wifi_manager.c:609-762 | the whole next state after each event of the driver |
| `WifiSteps.TimerExactly` | common/wifi_manager/src/wifi_manager.c:150-168 | the whole next state after a timer fires: once for each start |
| `WifiSteps.UserExactly` | common/wifi_manager/src/wifi_manager.c:170-804 | the whole next state after each action of the user |
| `WifiTask.Task.ProcessMessage` | common/wifi_manager/src/wifi_manager.c:1026-1390 | one turn of the loop on the object is one step of the state machine, for every set of failing flash operations; it blocks exactly when it would wait for its own lock |
| `WifiTask.Task.HandleMessage` | common/wifi_manager/src/wifi_manager.c:1032-1388 | each message's handler does to bits, counter, timers, configuration and queue what the step says |
| `WifiTask.Task.ConnectionEnded` | common/wifi_manager/src/wifi_manager.c:1137-1263 | the three-way classification of a disconnection |
| `WifiTask.Task.Erase` | common/wifi_manager/src/wifi_manager.c:1213-1232 | configuration erased in memory and flash, access point ordered |
| `WifiTask.Task.LoseConnection` | common/wifi_manager/src/wifi_manager.c:1234-1262 | retry timer armed, counter advanced or access point ordered |
| `WifiTask.Task.AddressObtained` | common/wifi_manager/src/wifi_manager.c:1315-1363 | on the object: save or skip, counter reset, shutdown timer armed if the access point is up |
| `WifiTask.Task.LoadSaved` | common/wifi_manager/src/wifi_manager.c:1082-1092 | restore the saved network or start the access point |
| `WifiTask.Task.StationDisconnected` | common/wifi_manager/src/wifi_manager.c:685-696 | connected and scan bits cleared, message sent |
| `WifiTask.Task.StationGotIp` | common/wifi_manager/src/wifi_manager.c:757-762 | connected bit set, message sent |
| `WifiTask.Task.ScanEnded` | common/wifi_manager/src/wifi_manager.c:609-615 | scan bit cleared, message sent |
| `WifiTask.Task.AccessPointSwitched` | common/wifi_manager/src/wifi_manager.c:705-713 | the access-point bit follows the driver |
| `SensorCsv.Card.Write` | common/sd_card_lib/sd_card_lib.c:75-92 | appends one line, with a header first when the counter is zero, and counts it |
| `SensorCsv.Card.Read` | common/sd_card_lib/sd_card_lib.c:94-128 | the record of the asked line, or nothing where there is no such line |
| `SensorCsv.LineRoundTrip` | common/sd_card_lib/sd_card_lib.c:86-117 | reading a written line gives the record back, but for the blank before its time stamp |
| `SensorCsv.SevenTokens` | common/sd_card_lib/sd_card_lib.c:104-117 | seven comma-separated fields are seven tokens |
| `SensorCsv.AtofFixed` | common/sd_card_lib/sd_card_lib.c:108-117 | a number printed with two decimals reads back exactly |
| `SensorCsv.FileGrows` | common/sd_card_lib/sd_card_lib.c:75-92 | writing a record to a file of records gives the file of one more |
| `SensorCsv.Drain` | main/app_main.c:477-499 | undisturbed, the drain loop publishes every record once, in order, and resets file and counter |
| `StoreForward.ConservedThroughoutIff` | main/app_main.c:428-519 | for every run of events, suspensions and steps from a boot: conservation holds throughout if and only if nothing is written between the reader's last test and the deletion |
| `StoreForward.Conservation` | main/app_main.c:428-519 | over every such run: produced = queued + in hand + unread + published, as multisets; the unread records are read back from the card, in order, from the reader's line on; the counter is their number with those of the file already published |
| `StoreForward.FileOrder` | main/app_main.c:480-494 | over the same runs the file's publications are the written records, once each and in the order of writing, even when the file grows during the drain |
| `StoreForwardOrder.FirstInFirstOut` | main/app_main.c:438-513 | over every run, whatever the network does: the records taken from the queue, in the order taken, followed by the queue, are those produced; the writer's share are the written ones and the one in its hand, the reader's those published from the queue and the one in its hand; never more than five are queued |
| `StoreForwardOrder.ProductionOrder` | main/app_main.c:438-513 | over every run the written records with the writer's hand, and the publications from the queue with the reader's hand, are each in the order of production |
| `StoreForwardOrder.CardInProductionOrder` | main/app_main.c:438-499 | over every calm run what the card publishes is what some of the produced records, in their order, read back as |
| `StoreForwardDelivery.StoredIsDelivered` | main/app_main.c:475-499 | after any calm run a reader left to run publishes every record of the file, in order, deletes the file and starts over |
| `StoreForwardDelivery.OutageIsDelivered` | main/app_main.c:428-519 | an outage in which the writer stores the queue, and a network that comes back: everything stored or queued is published, in order, and nothing stays behind |
| `StoreForwardDelivery.QueueIsStored` | main/app_main.c:436-454 | a writer left to run moves the whole queue to the card, front first, with a header if the counter was zero |
| `StoreForwardDelivery.QueueIsForwarded` | main/app_main.c:500-517 | without a file a reader left to run publishes the whole queue, front first |
| `StoreForwardDelivery.SwitchesStep` | main/app_main.c:333-360 | who is running after any step |
| `StoreForwardDelivery.ProduceStep` | main/app_main.c:763-866 | a record is queued if and only if fewer than five are |
| `StoreForward.StepKeepsInvariant` | main/app_main.c:305-519 | each calm step keeps file, counter, line number and histories in agreement |
| `StoreForward.ConservedUnlessWrittenInWindow` | main/app_main.c:480-499 | a step ends conservation if and only if it is a write in that window |
| `StoreForward.WindowWriteIsLost` | main/app_main.c:497-499 | such a record is deleted with the file: all others are accounted for, this one is nowhere |
| `StoreForward.CounterSurvivesFile` | main/app_main.c:498-499 | written just before the deletion it leaves counter one and no file |
| `StoreForwardRuns.LossFromBoot` | main/app_main.c:428-499 | a run from the boot that loses a record in this way |
| `StoreForwardRuns.CounterSurvivesFromBoot` | main/app_main.c:428-499 | a run from the boot after which the next file starts without a header and its first record is on no line that is read |
| `StoreForwardRuns.HeldRecordIsOvertaken` | main/app_main.c:354-513 | a run from the boot in which the record in the hand of the suspended writer is overtaken by the next one |
| `StoreForwardRuns.LeftoverFileIsDeleted` | main/app_main.c:477-499 | a file from before the boot is deleted unread when nothing is written to it |
| `StoreForwardRuns.LeftoverTakesPlace` | main/app_main.c:477-499 | behind any leftover lines a new record is deleted and the second line published in its place |
| `StoreForwardRuns.LeftoverConservesIff` | main/app_main.c:477-499 | conservation holds over all calm runs if and only if the boot finds no file or one without lines |
| `StoreForward.TasksAlternate` | main/app_main.c:333-360 | over every run, once the writer has suspended itself the two tasks never run together |
| `StoreForward.Switches.OnDisconnected` | main/app_main.c:325-348 | the handler switches the tasks once for each loss |
| `StoreForward.Switches.OnGotIp` | main/app_main.c:350-361 | an address stops the writer and resumes the reader |

## Left out

- ESP-IDF, FreeRTOS, lwIP, the flash, FAT and MQTT are environments: a queue, event bits, a key-value store, a list of lines, a log of publications.
- The web server and its pages, the MQTT client, the OTA update, the input, output and SNTP wrappers have no deep property.
- The edges and the write protection of the DS1302 are assumptions about the chip: the automaton in `Ds1302Chip` states them. It stores burst bytes one at a time, keeps all eight bits of a register, and its clock does not tick between setting and reading.
- `DS1302_getTime` and `DS1302_isHalted` would only repeat the reading of a register.
- The humidity and gas resistance formulas and the decoding of the calibration bytes; the heater resistance is a function of temperature and stored ambient temperature for a fixed calibration.
- A chip reset is assumed to clear the configuration registers, and of the chip's own steps only those that leave the configuration alone, the mode excepted, are modelled.
- A failing bus operation ends the call; whether the mutex is then given back is not modelled.
- Bme680Pressure.PressureDefined: the bounds are sufficient, not exact; the exact set of inputs without overflow has no simple description.
- Signed overflow in the pressure computation has no value here, because C gives it none.
- The manager's queue is unbounded, while the firmware's holds three messages and a sender may wait.
- WifiTask.Task.ProcessMessage: a message whose handling blocks on the lock stays at the head of the queue; that its bits and the configuration in memory may already have been cleared is not modelled. A value set in the flash counts as stored, whether or not the commit succeeds.
- A new configuration from the web page and its message are one step; calls into the driver, the web server and the DNS server are not modelled, nor is a shutdown timer set to zero.
- ScanJson.GenerateList: says where the text goes past its buffer, not what was stored there before; the memory is assumed to reach as far as the longest text.
- StatusJson.GenerateIpInfo: `snprintf` is the C standard's; a library that refuses sizes above INT_MAX prints nothing where the size has wrapped round. Escaped SSIDs of 2^31 bytes and more are left open.
- JsonPrinter.PrintString: requires room in the caller's memory, which the code does not check; a character is one byte, bytes from 0x80 on are passed through, so no statement is made about UTF-8.
- The JSON parser covers strings, integers, arrays and objects; it accepts no surrogate escapes, fractions or literals.
- SSID arrays are C strings: an SSID that fills its 32 bytes without a NUL is not modelled.
- DnsServer.Serve: what a copy of a negative length does to the memory is undefined and not modelled; `DnsServer.GuardIsSafeIff` says which lengths leave the buffers. Names are not limited to 255 octets.
- Numbers in the SD card file are hundredths, not floats; a line longer than the read buffer and time stamps with separators are excluded by `SensorCsv.Safe`. The time stamp a record points to is taken as a value.
- A line with fewer than seven fields, for which the code follows a null pointer, reads as nothing.
- StoreForward.Conservation: holds for runs without a write in the reset window; `StoreForward.ConservedThroughoutIff` shows that this is the exact condition.
- The file test, the loop test with the following read, a publication and a write to the card are one step each; the delays between them are not modelled. In the code the counter is incremented before the line reaches the card, so a writer suspended in between lets the reader count a line that is not there yet; how the file system then treats a file deleted while it is open is not part of this model.
- StoreForwardOrder.ProductionOrder: the order within the card and within the queue; between the two a record may be overtaken, as `StoreForwardRuns.HeldRecordIsOvertaken` shows.
- Liveness: that a task gets to run depends on the scheduler and the network; `StoreForwardDelivery` says what it gets done when it does.
