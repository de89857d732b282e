/**
 * The part of an ELF file that the load dialog looks at, as the ELF reader reports it: the
 * `e_machine` and `e_type` fields of the ELF header of the System V generic ABI and the
 * section header table, in file order.
 */
module Elf {

  /** `e_type` value of an executable file (System V gABI, "ELF Header"). */
  const ET_EXEC: nat := 2

  datatype Section = Section(name: string, address: nat)

  datatype ElfFile = ElfFile(machine: nat, objectType: nat, sections: seq<Section>)

  /**
   * Texts the dialog takes from helpers it does not define: the display names of machine and
   * type numbers, and the text that follows "<name>: " in a section line.
   */
  datatype ElfStrings = ElfStrings(
    machineName: nat -> string,
    typeName: nat -> string,
    addressText: nat -> string)
}
