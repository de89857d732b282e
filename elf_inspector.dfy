/**
 * The ELF inspector of the load dialog: checks, in order and stopping at the first failure,
 * that the file parses as ELF, that its machine is the current ISA's and that it is an
 * executable; only then does it list the sections that will be loaded.
 */
module ElfInspector {
  import opened Wrappers
  import opened Text
  import opened Elf

  /** The report one validation produces; `errorMessage` is empty unless `valid` is false. */
  datatype ElfInfo = ElfInfo(valid: bool, errorMessage: string, sectionInfo: seq<string>)

  const NotElfMessage: string := "Not an ELF file"
  const MachineMismatchHeading: string := "Incompatible ELF machine type (ISA)."
  const NotExecutableHeading: string := "Only executable files are supported."

  /** The pieces of the machine-mismatch diagnostic, in order. */
  function MachineMismatchPieces(expected: nat, actual: nat, strings: ElfStrings): seq<string> {
    [MachineMismatchHeading, "<br/><br/>Expected machine type:<br/>'",
     NumberText(expected), "' (", strings.machineName(expected),
     ")<br/>but file has machine type:<br/>    '",
     NumberText(actual), "' (", strings.machineName(actual), ")"]
  }

  /** The diagnostic for a machine mismatch names both machine numbers and both machine names. */
  function MachineMismatchMessage(expected: nat, actual: nat, strings: ElfStrings): (msg: string)
    ensures StartsWith(msg, MachineMismatchHeading)
    ensures Contains(msg, NumberText(expected)) && Contains(msg, strings.machineName(expected))
    ensures Contains(msg, NumberText(actual)) && Contains(msg, strings.machineName(actual))
  {
    var pieces := MachineMismatchPieces(expected, actual, strings);
    ConcatContainsPiece(pieces, 2);
    ConcatContainsPiece(pieces, 4);
    ConcatContainsPiece(pieces, 6);
    ConcatContainsPiece(pieces, 8);
    Concat(pieces)
  }

  /** The pieces of the not-executable diagnostic, in order. */
  function NotExecutablePieces(actual: nat, strings: ElfStrings): seq<string> {
    [NotExecutableHeading, "<br/><br/>File type is<br/>",
     NumberText(actual), " (", strings.typeName(actual),
     ")<br/>Expected<br/>",
     NumberText(ET_EXEC), " (", strings.typeName(ET_EXEC), ")"]
  }

  /** The diagnostic for a non-executable file names the file's type and ET_EXEC, by number and by name. */
  function NotExecutableMessage(actual: nat, strings: ElfStrings): (msg: string)
    ensures StartsWith(msg, NotExecutableHeading)
    ensures Contains(msg, NumberText(actual)) && Contains(msg, strings.typeName(actual))
    ensures Contains(msg, NumberText(ET_EXEC)) && Contains(msg, strings.typeName(ET_EXEC))
  {
    var pieces := NotExecutablePieces(actual, strings);
    ConcatContainsPiece(pieces, 2);
    ConcatContainsPiece(pieces, 4);
    ConcatContainsPiece(pieces, 6);
    ConcatContainsPiece(pieces, 8);
    Concat(pieces)
  }

  /** The report line of one section: its name, ": ", then the text of its address. */
  function SectionLine(s: Section, strings: ElfStrings): (line: string)
    ensures StartsWith(line, s.name + ": ")
  {
    var head := s.name + ": ";
    var line := head + strings.addressText(s.address);
    assert line[..|head|] == head;
    line
  }

  /** One report line per section, in section-table order. */
  function SectionLines(sections: seq<Section>, strings: ElfStrings): (lines: seq<string>)
    ensures |lines| == |sections|
    ensures forall i :: 0 <= i < |sections| ==> lines[i] == SectionLine(sections[i], strings)
  {
    if sections == [] then []
    else SectionLines(sections[..|sections| - 1], strings) + [SectionLine(sections[|sections| - 1], strings)]
  }

  /**
   * What one validation reports for the reader's result `elf` (None when the reader could not load
   * the file) when the current ISA's machine number is `expectedMachine`.
   */
  function Inspect(elf: Option<ElfFile>, expectedMachine: nat, strings: ElfStrings): (r: ElfInfo)
    ensures r.valid <==> elf.Some? && elf.value.machine == expectedMachine && elf.value.objectType == ET_EXEC
    ensures !r.valid ==> r.sectionInfo == [] && r.errorMessage != ""
    ensures elf.None? ==> r.errorMessage == NotElfMessage
    ensures elf.Some? && elf.value.machine != expectedMachine ==>
      r.errorMessage == MachineMismatchMessage(expectedMachine, elf.value.machine, strings)
    ensures elf.Some? && elf.value.machine == expectedMachine && elf.value.objectType != ET_EXEC ==>
      r.errorMessage == NotExecutableMessage(elf.value.objectType, strings)
    ensures r.valid ==> r.errorMessage == "" && |r.sectionInfo| == |elf.value.sections|
    ensures r.valid ==> forall i :: 0 <= i < |r.sectionInfo| ==>
      StartsWith(r.sectionInfo[i], elf.value.sections[i].name + ": ")
  {
    if elf.None? then
      ElfInfo(false, NotElfMessage, [])
    else if elf.value.machine != expectedMachine then
      ElfInfo(false, MachineMismatchMessage(expectedMachine, elf.value.machine, strings), [])
    else if elf.value.objectType != ET_EXEC then
      ElfInfo(false, NotExecutableMessage(elf.value.objectType, strings), [])
    else
      ElfInfo(true, "", SectionLines(elf.value.sections, strings))
  }

  /** A failed load is reported the same whatever the ISA and the name helpers: no later check is reached. */
  lemma NotElfStopsChecks(expected1: nat, expected2: nat, strings1: ElfStrings, strings2: ElfStrings)
    ensures Inspect(None, expected1, strings1) == Inspect(None, expected2, strings2) == ElfInfo(false, NotElfMessage, [])
  {
  }

  /** A machine mismatch is reported the same whatever the file's type and sections: the type check is not reached. */
  lemma MachineMismatchStopsChecks(f: ElfFile, g: ElfFile, expected: nat, strings: ElfStrings)
    requires f.machine == g.machine != expected
    ensures Inspect(Some(f), expected, strings) == Inspect(Some(g), expected, strings)
    ensures Inspect(Some(f), expected, strings).errorMessage != Inspect(None, expected, strings).errorMessage
  {
  }

  /** A RISC-V dialog (machine 243) shown an x86-64 executable (machine 62): rejected, quoting both numbers. */
  lemma {:induction false} MachineMismatchExample(sections: seq<Section>, strings: ElfStrings)
    ensures var r := Inspect(Some(ElfFile(62, ET_EXEC, sections)), 243, strings);
      !r.valid && r.sectionInfo == [] && Contains(r.errorMessage, "243") && Contains(r.errorMessage, "62")
  {
    assert NumberText(24) == NumberText(2) + [DigitChar(4)];
    assert NumberText(243) == "243";
    assert NumberText(62) == "62";
  }

  /** Models `validateELFFile`: the checks run in order and the first failure returns at once. */
  method ValidateElfFile(elf: Option<ElfFile>, expectedMachine: nat, strings: ElfStrings) returns (info: ElfInfo)
    ensures info == Inspect(elf, expectedMachine, strings)
  {
    info := ElfInfo(true, "", []);
    if elf.None? {
      info := info.(errorMessage := NotElfMessage, valid := false);
      return;
    }
    var file := elf.value;
    if file.machine != expectedMachine {
      info := info.(errorMessage := MachineMismatchMessage(expectedMachine, file.machine, strings), valid := false);
      return;
    }
    if file.objectType != ET_EXEC {
      info := info.(errorMessage := NotExecutableMessage(file.objectType, strings), valid := false);
      return;
    }
    var i := 0;
    while i < |file.sections|
      invariant 0 <= i <= |file.sections|
      invariant info == ElfInfo(true, "", SectionLines(file.sections[..i], strings))
    {
      assert file.sections[..i + 1][..i] == file.sections[..i];
      info := info.(sectionInfo := info.sectionInfo + [SectionLine(file.sections[i], strings)]);
      i := i + 1;
    }
    assert file.sections[..i] == file.sections;
  }
}
