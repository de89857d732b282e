/**
 * The per-format checks of the load dialog and their dispatch: assembly files are always accepted,
 * flat binaries need both hexadecimal fields to parse, executables go through the ELF inspector.
 */
module FormatValidation {
  import opened Wrappers
  import opened Elf
  import ElfInspector

  /** An unsigned 32-bit value. */
  type U32 = x: nat | x < 0x1_0000_0000

  datatype FileType = Assembly | FlatBinary | Executable

  /** Ids of the three format radio buttons. */
  datatype TypeButtonId = AssemblyButton | FlatBinaryButton | ElfButton

  /** The button that selects each format (the pairing made when the buttons join their group). */
  function ButtonOf(t: FileType): TypeButtonId {
    match t
    case Assembly => AssemblyButton
    case FlatBinary => FlatBinaryButton
    case Executable => ElfButton
  }

  /** The format a checked button selects; the pairing is one-to-one, so the button id determines the format. */
  function FileTypeOf(id: TypeButtonId): (t: FileType)
    ensures ButtonOf(t) == id
  {
    match id
    case AssemblyButton => Assembly
    case FlatBinaryButton => FlatBinary
    case ElfButton => Executable
  }

  /**
   * What the dialog asks of the world outside it: whether a path names an existing file, what the
   * ELF reader makes of a path (None when it cannot load it), Qt's base-16 parse of a field's text
   * (None when it fails), the current ISA's ELF machine number and the ELF display strings.
   */
  datatype Host = Host(
    fileExists: string -> bool,
    readElf: string -> Option<ElfFile>,
    parseHex32: string -> Option<U32>,
    isaMachineId: nat,
    strings: ElfStrings)

  /** What the user has entered: the path, the selected format and the two flat-binary fields. */
  datatype Inputs = Inputs(filePath: string, fileType: FileType, loadAtText: string, entryPointText: string)

  /** Both hexadecimal fields start out with this text. */
  const DefaultHexText: string := "0x00000000"

  /** Assembly files are accepted whatever they hold; syntax is checked later, by the assembler. */
  function ValidateAssemblyFile(filePath: string): (ok: bool)
    ensures ok
  {
    true
  }

  /** The validity of each flat-binary field, kept apart so that each field is reported on its own. */
  datatype BinaryVerdict = BinaryVerdict(loadAtValid: bool, entryPointValid: bool) {
    predicate Accepted() {
      loadAtValid && entryPointValid
    }
  }

  /** Each field is judged by its own parse alone; the file is accepted iff both fields parse. */
  function ValidateBinaryFile(loadAtText: string, entryPointText: string, parseHex32: string -> Option<U32>): (v: BinaryVerdict)
    ensures v.loadAtValid <==> parseHex32(loadAtText).Some?
    ensures v.entryPointValid <==> parseHex32(entryPointText).Some?
    ensures v.Accepted() <==> parseHex32(loadAtText).Some? && parseHex32(entryPointText).Some?
  {
    var loadAtValid := parseHex32(loadAtText).Some?;
    var entryPointValid := parseHex32(entryPointText).Some?;
    BinaryVerdict(loadAtValid, entryPointValid)
  }

  /** The format-specific check for the current inputs, dispatched on the selected format. */
  function FormatCheck(host: Host, inputs: Inputs): (ok: bool)
    ensures inputs.fileType == Assembly ==> ok
    ensures inputs.fileType == FlatBinary ==>
      (ok <==> host.parseHex32(inputs.loadAtText).Some? && host.parseHex32(inputs.entryPointText).Some?)
    ensures inputs.fileType == Executable ==>
      (ok <==> var elf := host.readElf(inputs.filePath);
               elf.Some? && elf.value.machine == host.isaMachineId && elf.value.objectType == ET_EXEC)
  {
    match inputs.fileType
    case Assembly => ValidateAssemblyFile(inputs.filePath)
    case FlatBinary => ValidateBinaryFile(inputs.loadAtText, inputs.entryPointText, host.parseHex32).Accepted()
    case Executable => ElfInspector.Inspect(host.readElf(inputs.filePath), host.isaMachineId, host.strings).valid
  }
}
