/**
 The line driver of the bit-banged I2C master: the two bus lines live in
 the low bits of the user-port register, SDA on bit 0 and SCL on bit 1 as
 outputs, with their levels read back on bits 2 and 3 of the same register.
 Only the default build is modelled: outputs are active high (setting a bit
 releases the line, clearing it drives the line low) and the input bits are
 inverted, so a clear input bit reads as a high line.
 */
module LineDriver {
  import opened Bits

  /** Direction and port images of the user port (I2C_Driver.c lines 31-38). */
  const USR_DDR_DEFAULT: byte := 0x00
  const USR_DDR_I2C: byte := 0x03
  const USR_PORT_DEFAULT: byte := 0x00
  const USR_PORT_I2C: byte := 0x03
  const SCL_IN: byte := 0x08
  const SCL_OUT: byte := 0x02
  const SDA_IN: byte := 0x04
  const SDA_OUT: byte := 0x01

  /** The two output bits the driver owns. */
  const LINE_BITS: byte := 0x03

  /**
   The register image of an SDA line nobody drives: the pull-up holds the
   line high, so the inverted input bit is clear.
   */
  const RELEASED: byte := 0x00

  /** SDA is released (not driven low) in the output image `port`. */
  predicate SdaReleased(port: byte)
  {
    port & SDA_OUT != 0
  }

  /** SCL is released (not driven low) in the output image `port`. */
  predicate SclReleased(port: byte)
  {
    port & SCL_OUT != 0
  }

  /** The bits of the port register that do not belong to the bus outputs. */
  function Others(port: byte): byte
  {
    port & !LINE_BITS
  }

  /** `*usr_port |= line`: release one line. */
  function Release(port: byte, line: byte): (r: byte)
    requires line == SDA_OUT || line == SCL_OUT
    ensures r & line == line
    ensures r & !line == port & !line
  {
    port | line
  }

  /** `*usr_port &= ~line`: drive one line low. */
  function Drive(port: byte, line: byte): (r: byte)
    requires line == SDA_OUT || line == SCL_OUT
    ensures r & line == 0
    ensures r & !line == port & !line
  {
    port & !line
  }

  /** Releasing or driving a line twice is the same as doing it once. */
  lemma ReleaseDriveIdempotent(port: byte, line: byte)
    requires line == SDA_OUT || line == SCL_OUT
    ensures Release(Release(port, line), line) == Release(port, line)
    ensures Drive(Drive(port, line), line) == Drive(port, line)
    ensures Release(Drive(port, line), line) == Release(port, line)
    ensures Drive(Release(port, line), line) == Drive(port, line)
  {
  }

  /**
   The output register seen as what the driver controls: whether each bus
   line is released, and the remaining bits, which it never changes. Bits 0
   and 1 of `others` do not count. `sda` and `scl` are line levels only
   while the direction register makes both pins outputs (`USR_DDR_I2C`);
   under `USR_DDR_DEFAULT` both pins are inputs and the bits drive nothing.
   */
  datatype Port = Port(sda: bool, scl: bool, others: byte)

  /** The register image of a port. */
  function Image(p: Port): (image: byte)
    ensures SdaReleased(image) == p.sda && SclReleased(image) == p.scl
    ensures Others(image) == Others(p.others)
  {
    Others(p.others) | (if p.sda then SDA_OUT else 0) | (if p.scl then SCL_OUT else 0)
  }

  /** The port a register image shows. */
  function PortOf(image: byte): (p: Port)
    ensures Image(p) == image
  {
    Port(SdaReleased(image), SclReleased(image), Others(image))
  }

  /** Two ports with the same image agree on both lines and on the bits outside them. */
  lemma ImageInjective(p: Port, q: Port)
    ensures Image(p) == Image(q) <==> p.sda == q.sda && p.scl == q.scl && Others(p.others) == Others(q.others)
  {
  }

  /**
   Releasing or driving SDA in the port is exactly `|=` or `&= ~` of
   SDA_OUT on the register image: SCL and the other bits stay.
   */
  lemma SdaUpdates(p: Port)
    ensures Image(p.(sda := true)) == Release(Image(p), SDA_OUT)
    ensures Image(p.(sda := false)) == Drive(Image(p), SDA_OUT)
  {
  }

  /** The same for SCL and SCL_OUT. */
  lemma SclUpdates(p: Port)
    ensures Image(p.(scl := true)) == Release(Image(p), SCL_OUT)
    ensures Image(p.(scl := false)) == Drive(Image(p), SCL_OUT)
  {
  }

  /**
   `read_SDA`: `!((sample & 0x04) >> 2)`, the level of SDA as 0 or 1 given
   the register image `sample` read at that moment.
   */
  function ReadSDA(sample: byte): (r: byte)
    ensures r == 0 || r == 1
    ensures r == 1 <==> sample & SDA_IN == 0
  {
    if (sample & SDA_IN) >> 2 == 0 then 1 else 0
  }

  /** `read_SCL`: `!((sample & 0x08) >> 3)`, the level of SCL as 0 or 1. */
  function ReadSCL(sample: byte): (r: byte)
    ensures r == 0 || r == 1
    ensures r == 1 <==> sample & SCL_IN == 0
  {
    if (sample & SCL_IN) >> 3 == 0 then 1 else 0
  }

  /** The register image a peer produces on the input side when it holds SDA at `high`. */
  function Present(high: bool): (sample: byte)
    ensures ReadSDA(sample) == Flag(high)
  {
    if high then RELEASED else SDA_IN
  }

  /**
   `read_SDA` and `read_SCL` depend only on input bits 2 and 3 of the
   sampled register image: two samples that agree on those bits read the
   same, whatever their other bits, the output bits 0 and 1 among them. (On the bus, a line the driver pulls low does read
   low; that reaches the model through the sample, not through these bits.)
   */
  lemma ReadIgnoresOutputs(sample: byte, other: byte)
    requires other & (SDA_IN | SCL_IN) == sample & (SDA_IN | SCL_IN)
    ensures ReadSDA(other) == ReadSDA(sample)
    ensures ReadSCL(other) == ReadSCL(sample)
  {
  }
}
