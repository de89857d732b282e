# Load-program dialog of Ripes, modelled in Dafny

Ripes is a graphical processor simulator. Before a program is handed to the simulator, its "Load
program" dialog decides whether the chosen file may be loaded under the selected format (assembly
source, flat binary, or ELF executable) and, on OK, produces the load parameters. This project
models that decision engine, `src/loaddialog.cpp`, and proves what it promises:

- the three-way format selection, remembered process-wide for the next dialog (`TypeStore`,
  `LoadDialog.InputTypeChanged`);
- the per-format checks and their dispatch (`FormatValidation`): assembly is always accepted, a flat
  binary needs both hexadecimal fields to parse, each judged on its own; an executable goes through
  the ELF inspector;
- the ELF inspector (`ElfInspector`): load as ELF, then machine equals the current ISA's, then
  `e_type` equals `ET_EXEC` (section "ELF Header" of the System V generic ABI), stopping at the first
  failure with a diagnostic that quotes both the expected and the actual value; only on success one
  report line per section, in section-table order, each starting with the section's name and ": ";
- the OK gate: OK is enabled iff the file exists and the format check passes, and the format check
  is run only for a file that exists (a ghost log of the checks run, `formatChecks`, states this);
- OK itself (`LoadDialog.Accept`): a snapshot of the current inputs, without validating them again.

Files: `wrappers.dfy` (Option), `text.dfy` (decimal rendering as `QString::number` does it,
prefixes and containment), `elf.dfy` (the ELF header fields the dialog reads), `elf_inspector.dfy`,
`format_validation.dfy`, `load_dialog.dfy`.

The world outside the dialog is a value of `FormatValidation.Host`: whether a path exists
(`QFile::exists`), what the ELF reader makes of a path (an `Option<ElfFile>`), Qt's base-16 parse
of a field (`toUInt(…, 16)`, a partial function to unsigned 32-bit values whose language is not
pinned down), the current ISA's ELF machine number, and the display names of machine and type
numbers (from `elfinfostrings.h`, which is not part of this model).

Behaviour of the code worth knowing:
- the remembered format is a static member, so it lasts as long as the process; a new process
  starts at Assembly (src/loaddialog.cpp:20);
- the flat-binary fields are judged by Qt's `toUInt(…, 16)`; the model keeps that parse abstract;
- a section line is the name, ": ", and whatever appending the integer address to the string
  yields; the model keeps that suffix abstract;
- a missing file is reported only by colouring the path field, with no message of its own.

The ghost log `formatChecks` gets one entry per run of the format-selection slot, not one per user
switch: in an exclusive button group a switch toggles the old button off and the new one on, so the
slot (src/loaddialog.cpp:32-33) runs twice with the same checked button, and for an existing file
the format check runs twice. The final state is the same as after one run.

## Model

| member | source | states |
|---|---|---|
| `Text.NumberText` | src/loaddialog.cpp:159-161 | numbers quoted in diagnostics are non-empty strings of decimal digits with no leading zero |
| `Text.DecimalRoundTrip` | src/loaddialog.cpp:159-161 | reading the decimal text of a number gives the number back |
| `Text.NumberTextInjective` | src/loaddialog.cpp:170-171 | distinct numbers are quoted as distinct texts, so a quoted number identifies the value |
| `ElfInspector.MachineMismatchMessage` | src/loaddialog.cpp:158-162 | the machine diagnostic starts with its heading and contains the expected and the actual machine number and both machine names |
| `ElfInspector.NotExecutableMessage` | src/loaddialog.cpp:169-171 | the type diagnostic starts with its heading and contains the file's type number and name and ET_EXEC's number and name |
| `ElfInspector.SectionLine` | src/loaddialog.cpp:178 | a section's report line starts with the section's name followed by ": " |
| `ElfInspector.SectionLines` | src/loaddialog.cpp:177-179 | exactly one line per section, line i describing section i |
| `ElfInspector.Inspect` | src/loaddialog.cpp:145-184 | valid iff loaded, machine matches and type is ET_EXEC; on failure no section lines and the message of the first failed check ("Not an ELF file", machine, type); on success no message and one line per section in order, each starting with the section's name and ": " |
| `ElfInspector.NotElfStopsChecks` | src/loaddialog.cpp:150-155 | a file that does not load is reported as "Not an ELF file" with no sections, whatever the ISA: no machine or type check is reached |
| `ElfInspector.MachineMismatchStopsChecks` | src/loaddialog.cpp:156-165 | with a wrong machine the report does not depend on the file's type or sections (the type check is not reached) and differs from the not-ELF report |
| `ElfInspector.MachineMismatchExample` | src/loaddialog.cpp:157-165 | expected machine 243 and file machine 62: rejected, no sections, message contains "243" and "62" |
| `ElfInspector.ValidateElfFile` | src/loaddialog.cpp:145-184 | the step-by-step check with early exits and the section loop yields exactly the report `Inspect` specifies |
| `FormatValidation.FileTypeOf` | src/loaddialog.cpp:61-77 | Assembly, FlatBinary and ELF buttons select Assembly, FlatBinary and Executable, one-to-one |
| `FormatValidation.ValidateAssemblyFile` | src/loaddialog.cpp:114-116 | every assembly file is accepted |
| `FormatValidation.ValidateBinaryFile` | src/loaddialog.cpp:118-127 | each field's validity is its own parse succeeding; accepted iff both fields parse |
| `FormatValidation.FormatCheck` | src/loaddialog.cpp:186-195 | per format: Assembly passes; FlatBinary passes iff both fields parse; Executable passes iff the file loads as ELF with the ISA's machine and type ET_EXEC |
| `Dialog.TypeStore.constructor` | src/loaddialog.cpp:20 | the remembered format button starts as Assembly |
| `Dialog.LoadDialog.constructor` | src/loaddialog.cpp:22-57 | a new dialog has an empty path, both hex fields at "0x00000000", the remembered format selected (the memory unchanged) and OK reflecting the verdict |
| `Dialog.LoadDialog.InputTypeChanged` | src/loaddialog.cpp:59-79 | the checked button becomes the remembered default, its format the current one, and the current path is validated again under it |
| `Dialog.LoadDialog.FileTypeValidate` | src/loaddialog.cpp:186-195 | running the selected format's check returns `FormatCheck` for the current inputs and logs one check |
| `Dialog.LoadDialog.ValidateCurrentFile` | src/loaddialog.cpp:197-208 | OK enabled iff the file exists and the format check passes; the format check is run only when the file exists |
| `Dialog.LoadDialog.EditFilePath` | src/loaddialog.cpp:35 | a new path is validated at once |
| `Dialog.LoadDialog.EditLoadAt` | src/loaddialog.cpp:48 | a new load address text triggers validation again |
| `Dialog.LoadDialog.EditEntryPoint` | src/loaddialog.cpp:49 | a new entry point text triggers validation again |
| `Dialog.LoadDialog.Accept` | src/loaddialog.cpp:215-224 | the parameters are the current path, format and the fields' parses (0 when a parse fails), with no new validation; when OK was enabled they describe an existing file that passes its check, and a flat binary's numbers equal its fields' parses exactly |

## Left out

- Qt widget plumbing: field colouring (`paletteValidate`), the HTML rendering of the ELF report (`setElfInfo`), the file dialog's titles and filters (`openFileButtonTriggered`), page switching (`update*PageState`), the error box (`loadFileError`), closing the dialog and the destructor: user interface only.
- ELF parsing itself (`reader.load`, `get_machine`, `get_type`, `sections`): a foreign library; its result is the abstract `Host.readElf`.
- File existence, the current ISA and the machine and type display names: foreign calls, taken as fields of `Host`.
- The grammar of `hexRegex32` and the edge cases of Qt's `toUInt(…, 16)` (whitespace, `0x` prefix, overflow): an abstract partial parse; the regex validator on the fields is not modelled, so any text may be entered.
- `ElfInspector.SectionLine`: the text after "<name>: " is abstract; the source appends the integer address to the string, which most likely adds one character rather than a decimal address, and that conversion is not part of this model.
- `Dialog.LoadDialog.InputTypeChanged`: a checked id outside the three buttons (no button checked) is not modelled; the button group is exclusive and the slot runs only on toggles.
- Changes to the file system or to the ISA while a dialog is open are not modelled (`Host` is fixed per dialog), so the stale-verdict risk of `accept` trusting the last verdict appears only as `Accept` not validating again.
- `Dialog.LoadDialog.constructor`: the empty starting path comes from the dialog's form definition, which is not part of this model; the constructor assumes the path field starts empty.
- `src/main.cpp` and `src/memoryviewerwidget.h`: start-up plumbing and a widget declaration, no load logic.
