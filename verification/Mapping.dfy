/** The register tables of one slave (`modbus_mapping_t`) and the parameters of a handler call. */
module RegisterMapping {
  import opened Words

  const FC_READ_HOLDING_REGISTERS: u8 := 0x03
  const FC_READ_INPUT_REGISTERS: u8 := 0x04
  const FC_WRITE_SINGLE_REGISTER: u8 := 0x06
  const FC_WRITE_MULTIPLE_REGISTERS: u8 := 0x10

  /** The most registers of one read and of one write with function 16 (sections 6.3, 6.4 and 6.12 of the
      MODBUS Application Protocol Specification V1.1b3). */
  const MODBUS_MAX_READ_REGISTERS: nat := 125
  const MODBUS_MAX_WRITE_REGISTERS: nat := 123

  class Mapping {
    const tabRegisters: array<u16>
    const tabInput: array<u16>

    /** Register `a` stands for the device bytes `2a` and `2a+1`, which a 16-bit register address
        reaches only when `a < 0x8000`. */
    predicate Valid() {
      tabRegisters != tabInput && tabRegisters.Length <= 0x8000 && tabInput.Length <= 0x8000
    }

    constructor (nbRegisters: nat, nbInput: nat)
      requires nbRegisters <= 0x8000 && nbInput <= 0x8000
      ensures Valid() && fresh(tabRegisters) && fresh(tabInput)
      ensures tabRegisters.Length == nbRegisters && tabInput.Length == nbInput
      ensures forall a :: 0 <= a < nbRegisters ==> tabRegisters[a] == 0
      ensures forall a :: 0 <= a < nbInput ==> tabInput[a] == 0
    {
      tabRegisters := new u16[nbRegisters](_ => 0);
      tabInput := new u16[nbInput](_ => 0);
    }
  }

  datatype Param = Param(slave: u8, fc: u8, address: u16, count: u16, mapping: Mapping)
}
