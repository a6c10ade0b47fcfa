# CC65_I2C in Dafny

A model of the bit-banged I2C master in `I2C_Driver.c` and of the PCA9596
port-expander driver built on it in `PCA9596_Driver.c`. Both come from the
CC65_I2C repository, which targets a 6502 machine whose user port carries
SDA on output bit 0 and SCL on output bit 1. The levels of the two lines are
read back on bits 2 and 3 of the same register.

The modules follow the program:

- `Bits` covers `unsigned char` values, the MSB-first bit order of section
  3.1.5 of the NXP I2C-bus specification (UM10204), and the shift-in
  accumulator.
- `LineDriver` covers the register constants, the read-modify-write
  primitives on the port image, and `read_SDA`/`read_SCL`.
- `I2CDriver` models the driver as a state machine over an immutable `Bus`
  record:
  - the port (both lines and the remaining bits);
  - the direction register;
  - the global `started` flag;
  - a peer oracle, which lists the register images SDA sampling will see;
  - the list of bus events produced, in order.
  It covers `set_/clear_SDA/SCL`, `write_bit`, `read_bit`, `start`, `stop`,
  `writeBytes`, `readBytes`, `init` and `portReset`.
- `BusMonitor` is an independent listener on the two lines. It recognises
  START, STOP and data bits as sections 3.1.3 and 3.1.4 of UM10204 define
  them.
- `WireCheck` proves that the port accesses of legal event sequences are
  heard as exactly those events. It also proves which `writeBytes` and
  `readBytes` calls are legal.
- `PCA9596` covers the chip constants, the address and register bytes, and
  `configAll`, `writePorts` and `readPorts`. Each is a fixed list of
  driver calls, run through the driver, with their statuses OR-ed together.
- `PCA9596Wire` proves that the port accesses of each PCA9596 operation,
  started on a free bus, are heard as exactly its events and leave the bus
  free. The listener assumes that only the master moves SDA, except when
  the master samples it (see "## Left out").
- `Defects` models two loops of `I2C_Driver.c` as written, next to the loops
  they are evidently meant to be. See "## Findings".

Every driver method that clocks the bus returns a ghost value, `wire`: the
line levels each of its port writes leaves and the level each SDA sample
reads, in order. For a
method that puts one event `e` on the bus, `wire` is `Render(e, scl)`, with
`scl` the SCL level on entry. For the byte loops, `writeBytes`, `readBytes`,
`Run` and the three PCA9596 operations, `wire` is
`I2CDriver.Rendered(es, scl)`, the concatenation of the renderings of the
events `es` the method records. The `WireCheck` and `PCA9596Wire` lemmas are
stated about `Rendered(es, scl)`. With these `ensures`, they are statements
about the driver's own port accesses. `WireCheck.CallsCompose` shows that
listening to two calls in a row composes call by call.

## Model

| member | source | states |
|---|---|---|
| Bits.MaskBit | CC65_I2C/src/I2C_Driver.c:133-136 | each mask `0x80 >> k` selects bit k of the byte, counted from the top; the mask stays nonzero for exactly eight steps; the other two conjuncts restate `BitAt` and `Mask` for the loops that call it |
| Bits.FromBitsOf | CC65_I2C/src/I2C_Driver.c:98-101 | shifting the eight bits of a byte into any accumulator, most significant first, rebuilds exactly that byte |
| Bits.BitsOfFrom | CC65_I2C/src/I2C_Driver.c:98-101 | the byte assembled from eight sampled bits has exactly those bits, so a received byte and its bits determine each other |
| Bits.BitsOfInjective | CC65_I2C/src/I2C_Driver.c:133-136 | two bytes with the same eight bits are equal, so writing the bits MSB first loses nothing |
| LineDriver.Release | CC65_I2C/src/I2C_Driver.c:169-176 | `\|=` of a line's output bit sets that bit and leaves every other bit of the register as it was |
| LineDriver.Drive | CC65_I2C/src/I2C_Driver.c:179-186 | `&= ~` of a line's output bit clears that bit and leaves every other bit of the register as it was |
| LineDriver.ReleaseDriveIdempotent | CC65_I2C/src/I2C_Driver.c:169-206 | releasing or driving a line twice is the same as once, and the last of a release and a drive of the same line wins |
| LineDriver.PortOf | CC65_I2C/src/I2C_Driver.c:31-38 | every register image is the image of a port record, so the record view loses no register state |
| LineDriver.ImageInjective | CC65_I2C/src/I2C_Driver.c:31-38 | two port records give the same register image exactly when they agree on both lines and on the non-bus bits |
| LineDriver.SdaUpdates | CC65_I2C/src/I2C_Driver.c:169-186 | setting or clearing SDA in the port record is `\|=` or `&= ~` of 0x01 on the register image |
| LineDriver.SclUpdates | CC65_I2C/src/I2C_Driver.c:189-206 | setting or clearing SCL in the port record is `\|=` or `&= ~` of 0x02 on the register image |
| LineDriver.ReadSDA | CC65_I2C/src/I2C_Driver.c:275-278 | `read_SDA` returns 0 or 1, and 1 exactly when input bit 2 is clear |
| LineDriver.ReadSCL | CC65_I2C/src/I2C_Driver.c:281-284 | `read_SCL` returns 0 or 1, and 1 exactly when input bit 3 is clear |
| LineDriver.ReadIgnoresOutputs | CC65_I2C/src/I2C_Driver.c:275-284 | `read_SDA` and `read_SCL` depend only on input bits 2 and 3 of the sampled register: two samples that agree on those bits read the same, whatever their other bits, so the output bits 0 and 1 do not enter them |
| I2CDriver.SetSDA | CC65_I2C/src/I2C_Driver.c:169-176 | `set_SDA` releases SDA and changes neither SCL, nor the other port bits, nor any other driver state |
| I2CDriver.ClearSDA | CC65_I2C/src/I2C_Driver.c:179-186 | `clear_SDA` drives SDA low and changes neither SCL, nor the other port bits, nor any other driver state |
| I2CDriver.SetSCL | CC65_I2C/src/I2C_Driver.c:189-196 | `set_SCL` releases SCL and changes neither SDA, nor the other port bits, nor any other driver state |
| I2CDriver.ClearSCL | CC65_I2C/src/I2C_Driver.c:199-206 | `clear_SCL` drives SCL low and changes neither SDA, nor the other port bits, nor any other driver state |
| I2CDriver.PrimitivesOnRegister | CC65_I2C/src/I2C_Driver.c:169-206 | each of the four primitives is one `\|=` or `&= ~` of its line's bit on the port register |
| I2CDriver.SampleSDA | CC65_I2C/src/I2C_Driver.c:275-278 | reading SDA consumes one sample of the peer and returns its level as 0 or 1; it changes no register |
| I2CDriver.WriteBit | CC65_I2C/src/I2C_Driver.c:287-325 | `write_bit` puts one data bit on the bus, 1 for any nonzero argument, and leaves SDA at that bit and SCL low; its three port writes are the rendering of that bit |
| I2CDriver.ReadBit | CC65_I2C/src/I2C_Driver.c:328-358 | `read_bit` takes one sample and returns its level; it leaves SDA released and SCL low, and its port accesses are the rendering of the sampled bit |
| I2CDriver.IssueStart | CC65_I2C/src/I2C_Driver.c:209-242 | `start` takes the repeated-start path exactly when `started` is set and always ends with both lines low and `started` set |
| I2CDriver.IssueStop | CC65_I2C/src/I2C_Driver.c:244-272 | `stop` leaves both lines released and, as written, sets `started` |
| I2CDriver.Render | CC65_I2C/src/I2C_Driver.c:209-358 | the line levels after each port write of an event: the first write leaves SCL where it was, so SDA moves before the clock; every event but STOP leaves SCL low, and STOP leaves both lines released |
| I2CDriver.RenderSamples | CC65_I2C/src/I2C_Driver.c:328-358 | only a read bit samples SDA, and the level it samples is the bit's own |
| I2CDriver.WriteByte | CC65_I2C/src/I2C_Driver.c:131-138 | the bit loop with its mask shifted writes the eight bits of the byte, MSB first, then stops with SCL low; its port accesses are the rendering of those eight bits |
| I2CDriver.Transmit | CC65_I2C/src/I2C_Driver.c:129-140 | the byte loop sends every byte followed by one acknowledgement sample; the NACK flag is 1 exactly when some acknowledgement read high; its port accesses are the rendering of those events |
| I2CDriver.StartIf | CC65_I2C/src/I2C_Driver.c:124-127 | `if (send_start) start();` records a START only when asked, and its port accesses are that START's rendering |
| I2CDriver.StopIf | CC65_I2C/src/I2C_Driver.c:142-145 | `if (send_stop) stop();` records a STOP only when asked, and then leaves SCL released |
| I2CDriver.WriteBytes | CC65_I2C/src/I2C_Driver.c:117-148 | `writeBytes` does an optional START, sends the bytes each with its acknowledgement, then an optional STOP; it returns 1 exactly when a byte was NACKed; `started` ends set if either option was asked for; its port accesses are the rendering of its events |
| I2CDriver.ReadByte | CC65_I2C/src/I2C_Driver.c:98-101 | eight samples, shifted in MSB first, give the byte those samples spell, whatever the accumulator held; its port accesses are the rendering of those eight bits |
| I2CDriver.Receive | CC65_I2C/src/I2C_Driver.c:96-106 | the byte loop stores the `length` bytes the peer sends, each followed by an ACK, including the last; it keeps the last byte read; its port accesses are the rendering of those events |
| I2CDriver.ReadBytes | CC65_I2C/src/I2C_Driver.c:90-114 | `readBytes` fills the buffer with the bytes received and returns the last of them, or 0 for a zero length; a STOP follows when asked for; its port accesses are the rendering of its events |
| I2CDriver.PortReset | CC65_I2C/src/I2C_Driver.c:83-87 | `portReset` puts the default images in the direction and port registers: both output bits cleared and both pins inputs, so neither line is driven |
| I2CDriver.Init | CC65_I2C/src/I2C_Driver.c:74-79 | `init` leaves both lines outputs and released, a free bus, and does not touch `started` |
| I2CDriver.ConfigIdempotent | CC65_I2C/src/I2C_Driver.c:74-87 | `portReset` and `init` are idempotent, and `init` after `portReset` is just `init` |
| BusMonitor.HearConditions | CC65_I2C/src/I2C_Driver.c:209-272 | a listener hears a START exactly when SDA falls while SCL stays high, and a STOP exactly when SDA rises while SCL stays high |
| BusMonitor.HearDataBit | CC65_I2C/src/I2C_Driver.c:287-358 | a data bit is heard exactly when SCL falls after a high period that held no condition, with the level SDA showed in that period |
| BusMonitor.ListenAppend | CC65_I2C/src/I2C_Driver.c:117-148 | listening to two runs of accesses back to back is listening to the first, then to the second from where the first left off |
| BusMonitor.RepeatedStartHeard | CC65_I2C/src/I2C_Driver.c:209-242 | the repeated-start path is heard as one START, both from a free bus and from SCL held low |
| BusMonitor.StopHeard | CC65_I2C/src/I2C_Driver.c:244-272 | `stop`'s three port writes, from SCL low, are heard as one STOP that leaves the bus free |
| WireCheck.EventHeard | CC65_I2C/src/I2C_Driver.c:209-358 | each event, started in the line state it is written for, is heard as exactly its meaning and leaves the lines where the event says |
| WireCheck.RenderedHeard | CC65_I2C/src/I2C_Driver.c:117-148 | a legal run of events, rendered on the lines, is heard as exactly its meanings, in order, and nothing else |
| WireCheck.WriteLegal | CC65_I2C/src/I2C_Driver.c:117-148 | `writeBytes` is legal when a fresh START is asked for only on a free bus, and data or a STOP without START only with SCL held low; it leaves the bus free after a STOP and SCL low after a START or a byte |
| WireCheck.ReadLegal | CC65_I2C/src/I2C_Driver.c:90-114 | `readBytes` is legal with SCL held low; it leaves the bus free after a STOP and SCL low after a byte |
| WireCheck.StopThenStart | CC65_I2C/src/I2C_Driver.c:244-272 | because `stop` leaves `started` set, the next `start` takes the repeated-start path, and a STOP followed by it is still heard as a STOP and a START |
| WireCheck.CallsCompose | CC65_I2C/src/I2C_Driver.c:117-148 | the per-call theorems compose: two legal calls in a row are heard as the meanings of the first, then of the second |
| PCA9596.AddressByte | CC65_I2C/src/PCA9596_Driver.c:50-54 | the address byte carries the read/write bit in bit 0, and for a read/write bit of 0 or 1 the seven bits above it are 0x20 with the low seven bits of the address pins |
| PCA9596.AddressBytes | CC65_I2C/src/PCA9596_Driver.c:15 | the address byte has the write bit clear, the read address is the write address with bit 0 set, and for address pins 0-7 the 7-bit address is 0x20 plus the pins |
| PCA9596.RegisterBytes | CC65_I2C/src/PCA9596_Driver.h:31-41 | the register bytes are 0x98, 0x90 and 0xA0 for the three configuration banks, 0x88 for the outputs and 0x80 for the inputs |
| PCA9596.ConfigAllTransfers | CC65_I2C/src/PCA9596_Driver.c:12-32 | `configAll` makes nine `writeBytes` calls in three frames: each frame opens with a START and only its last call sends a STOP |
| PCA9596.WritePortsTransfers | CC65_I2C/src/PCA9596_Driver.c:35-45 | `writePorts` makes three `writeBytes` calls: a START on the first, a STOP on the last only |
| PCA9596.ReadPortsTransfers | CC65_I2C/src/PCA9596_Driver.c:47-59 | `readPorts` makes three `writeBytes` calls without STOP, the first and third with a START, then reads five bytes with a STOP |
| PCA9596.ConfigAllShape | CC65_I2C/src/PCA9596_Driver.c:12-32 | `configAll` issues three frames of address, register and five-byte payload, for registers 0x98, 0x90 and 0xA0, in that order |
| PCA9596.WritePortsShape | CC65_I2C/src/PCA9596_Driver.c:35-45 | `writePorts` addresses the chip, selects register 0x88 and writes the output bank with a STOP |
| PCA9596.ReadPortsShape | CC65_I2C/src/PCA9596_Driver.c:47-59 | `readPorts` selects register 0x80 with no STOP, then readdresses for reading with a START and reads five bytes with a STOP |
| PCA9596.OrAllNonzero | CC65_I2C/src/PCA9596_Driver.c:14-31 | the `isOK \|=` accumulation is nonzero exactly when some call returned nonzero |
| PCA9596.ReplayAppend | CC65_I2C/src/PCA9596_Driver.c:12-32 | running two lists of driver calls back to back is running the first, then the second from where the first left the bus |
| PCA9596.Run | CC65_I2C/src/PCA9596_Driver.c:14-31 | issuing the calls in order records their events one after another, collects their results, and ORs every status into the result; only the two line bits of the port change, and its port accesses are the rendering of the recorded events |
| PCA9596.WritesStatus | CC65_I2C/src/I2C_Driver.c:129-139 | a run of writes takes one acknowledgement sample per byte; the OR of its statuses is 1 exactly when one of them was a NACK |
| PCA9596.StartedSticks | CC65_I2C/src/I2C_Driver.c:241 | the `started` flag is never cleared: once set it stays set, and a run that opens with a START sets it |
| PCA9596.ConfigAll | CC65_I2C/src/PCA9596_Driver.c:12-32 | `configAll` sends 21 bytes and returns 1 exactly when the chip NACKed one of them; it changes only the two line bits of the port, and its port accesses are the rendering of its events |
| PCA9596.WritePorts | CC65_I2C/src/PCA9596_Driver.c:35-45 | `writePorts` sends 7 bytes and returns 1 exactly when the chip NACKed one of them; it changes only the two line bits of the port, and its port accesses are the rendering of its events |
| PCA9596.ReadPortsReplay | CC65_I2C/src/PCA9596_Driver.c:47-59 | `readPorts` takes three acknowledgement samples, then the five input bytes; its last call returns the fifth byte read |
| PCA9596.ReadPorts | CC65_I2C/src/PCA9596_Driver.c:47-59 | as written, `readPorts` stores the five bytes read in `inPort`, changes nothing else in the record, and returns the acknowledgement flags OR-ed with the last byte read; it changes only the two line bits of the port, and its port accesses are the rendering of its events |
| PCA9596.ReadPortsChecked | CC65_I2C/src/PCA9596_Driver.c:47-59 | corrected `readPorts`: same bus traffic and `inPort`, with a status of 1 exactly when one of the three written bytes was NACKed |
| PCA9596.ChecksAcks | CC65_I2C/src/PCA9596_Driver.c:52-55 | the corrected status is nonzero exactly when one of the three acknowledgement samples read high |
| PCA9596.ReadPortsReportsInput | CC65_I2C/src/PCA9596_Driver.c:56 | a chip that ACKs every byte and whose inputs read 0xFF makes `readPorts` as written return 0xFF, where the corrected status is 0 |
| PCA9596Wire.ReplayLegal | CC65_I2C/src/PCA9596_Driver.c:12-59 | a run of driver calls, each made in a line state it works from, records a legal event sequence and leaves the lines as the calls say |
| PCA9596Wire.ConfigAllHeard | CC65_I2C/src/PCA9596_Driver.c:12-32 | the rendering of `configAll`'s events, which `PCA9596.ConfigAll` returns as its port accesses, is heard from a free bus as exactly those events and leaves the bus free, whatever the `started` flag was |
| PCA9596Wire.WritePortsHeard | CC65_I2C/src/PCA9596_Driver.c:35-45 | the rendering of `writePorts`' events, which `PCA9596.WritePorts` returns as its port accesses, is heard from a free bus as exactly those events and leaves the bus free |
| PCA9596Wire.ReadPortsFramed | CC65_I2C/src/PCA9596_Driver.c:52-56 | in `readPorts` the second START comes with SCL held low, after the first START has set the flag, so it takes the repeated-start path: the third call's first event is `RepStart` |
| PCA9596Wire.ReadPortsHeard | CC65_I2C/src/PCA9596_Driver.c:47-59 | the rendering of `readPorts`' events, which `PCA9596.ReadPorts` returns as its port accesses, is heard from a free bus as exactly those events and leaves the bus free, given that only the master moves SDA |
| Defects.MaskLoopAsWritten | CC65_I2C/src/I2C_Driver.c:133 | with the mask never shifted, the loop writes the same bit, `(byte & bit) != 0`, on every pass it makes |
| Defects.MaskLoopNeverEnds | CC65_I2C/src/I2C_Driver.c:133-137 | as written, the bit loop never leaves: given any number of passes it uses them all, and each writes bit 7 |
| Defects.MaskLoopWritesByte | CC65_I2C/src/I2C_Driver.c:133-137 | with the mask shifted in place, the loop writes exactly the eight bits of the byte, MSB first, and stops |
| Defects.MaskLoopCounterexample | CC65_I2C/src/I2C_Driver.c:133-137 | for byte 0x01 the loop as written gives nine zero bits in nine passes; the corrected loop gives 0,0,0,0,0,0,0,1 and stops |
| Defects.IndexLoopAsWritten | CC65_I2C/src/I2C_Driver.c:129 | the byte loop with an 8-bit index never makes more passes than it is given |
| Defects.IndexLoopNeverEnds | CC65_I2C/src/I2C_Driver.c:48 | with the 8-bit `index` and a 16-bit length of 256 or more, the byte loop never ends |
| Defects.IndexLoopShort | CC65_I2C/src/I2C_Driver.c:96 | below 256 bytes the 8-bit index makes exactly `length` passes, as a wide one would |
| Defects.IndexLoopStops | CC65_I2C/src/I2C_Driver.c:129 | an index as wide as the length makes exactly `length` passes for every length |
| Defects.IndexLoopCounterexample | CC65_I2C/src/I2C_Driver.c:129 | a 256-byte transfer shows the difference: the loop as written uses all 300 passes it is given, and a wide index stops after 256 |

## Left out

- `createI2C`, `PCA9596_init` and the `_i2c` pointer are left out. They only fill a table of function pointers; the model calls the operations directly.
- `main.c`, the demonstration program, is left out.
- The ARBITRATION build (`arbitration_lost` and the SDA checks in `start`, `stop` and `write_bit`) is left out. It is compiled out by default.
- The ACTIVE_LOW build, with inverted outputs, is left out for the same reason.
- `delay` and the clock-stretching waits are left out. Both are commented out in the source.
- The memory-mapped register addresses 0xDD01 and 0xDD03 are left out. Registers are fields of the `Bus` record.
- The peer on SDA is an oracle: a list of the register images successive SDA samples read. Once the list runs out, SDA reads as released (high).
- `read_SCL` is modelled, but the engine never calls it, since clock stretching is commented out.
- `I2CDriver.Transmit`: the file-scope `index`, `byte` and `nack` that `writeBytes` shares are modelled as locals. No other code reads them between calls.
- `I2CDriver.Transmit`, `I2CDriver.Receive`: `length` is an unbounded `nat` and the index is as wide as the length. The 8-bit `index` of the source is modelled only in `Defects` (see "## Findings").
- `I2CDriver.Init`: `init` (I2C_Driver.c:74-79) writes only the direction and port registers, so the model leaves `started` as it was.
- `I2CDriver.Receive`: every byte read is ACKed, the last one included. Section 3.1.6 of UM10204 has a master-receiver NACK the last byte, but the guard `index < length` at I2C_Driver.c:105 is always true inside the loop, and the model follows the code.
- `I2CDriver.IssueStop`: `stop` sets `started` to 1 rather than clearing it, and the model follows the code. `WireCheck.StopThenStart` shows the effect on the next START.
- `BusMonitor.Listen`: the listener takes SDA to be the level the master leaves it at, except at an access where the master samples it. A slave pulling SDA low at any other time is outside the model. This covers a slave's ACK, which the master samples, and a slave that releases SDA when SCL falls.
- `WireCheck.ReadLegal`: "leaves the bus free after a STOP" holds only under the listener's assumption above. `readBytes` ACKs its last byte (I2C_Driver.c:105), so a real slave-transmitter goes on to drive the first bit of another byte. If that bit is 0, the slave holds SDA low, `stop`'s `set_SDA` (I2C_Driver.c:261) does not raise it, no STOP condition occurs and the bus is not free.
- `PCA9596Wire.ReadPortsHeard`: for the same reason, its final STOP and the free bus after it hold only under the listener's assumption. Against a chip whose next input bit after the fifth byte is 0, `readPorts` ends with no STOP on the lines.
- `PCA9596.Device`: the `address` field is a whole byte. The shift into the address byte truncates to 8 bits, as the `unsigned char` arithmetic does.

## Findings

| source | as written | input that shows it | evidently intended | confidence | as-written member | corrected member |
|---|---|---|---|---|---|---|
| CC65_I2C/src/I2C_Driver.c:133 | `bit>>1` is evaluated and its value dropped, so the mask stays 0x80 and `bit >= 1` never fails | any byte, e.g. 0x01: pass after pass writes bit 7 (0) and the loop does not end | `bit >>= 1`: eight passes, bits 7 down to 0 | high; not executed | Defects.MaskLoopNeverEnds | I2CDriver.WriteByte |
| CC65_I2C/src/I2C_Driver.c:48 | `index` is an `unsigned char` compared with an `unsigned int` length (also at line 93 for readBytes), so it wraps at 256 | `length` = 256: `index < length` holds for every 8-bit index and the loop never ends | an index as wide as `length`: exactly `length` passes | medium; not executed | Defects.IndexLoopNeverEnds | I2CDriver.Transmit |
| CC65_I2C/src/PCA9596_Driver.c:56 | `isOK \|=` the result of `readBytes`, which is the last byte read (I2C_Driver.c:113), not an acknowledgement status | a chip that ACKs all three bytes and whose fifth input port reads 0xFF: `readPorts` returns 0xFF, which the caller reports as an error | the status of the three writes only: 0 when all bytes were ACKed | medium; not executed | PCA9596.ReadPortsReportsInput | PCA9596.ReadPortsChecked |
