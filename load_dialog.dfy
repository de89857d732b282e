/**
 * The load dialog's state: the selected format (remembered process-wide for the next dialog), the
 * path and flat-binary fields, whether OK is enabled, and the load parameters produced on OK.
 */
module Dialog {
  import opened Wrappers
  import opened FormatValidation
  import ElfInspector

  /** The parameters handed to the loader when the user confirms. */
  datatype LoadParams = LoadParams(filePath: string, fileType: FileType, binaryLoadAt: U32, binaryEntryPoint: U32)

  /** The process-wide memory of the last selected format button, read when a dialog opens. */
  class TypeStore {
    var typeIndex: TypeButtonId

    /** A fresh process starts with the assembly button selected. */
    constructor ()
      ensures typeIndex == AssemblyButton
    {
      typeIndex := AssemblyButton;
    }
  }

  /** Qt's base-16 parse of a field, where a failed parse yields 0. */
  function ParseOrZero(host: Host, text: string): U32 {
    host.parseHex32(text).GetOr(0)
  }

  class LoadDialog {
    const host: Host
    const store: TypeStore
    var filePath: string
    var loadAtText: string
    var entryPointText: string
    var fileType: FileType
    /** Whether the OK button is enabled. */
    var okEnabled: bool
    /** The parameters of the last confirmed load, None before the first one. */
    var params: Option<LoadParams>
    /**
     * Every format-specific check run so far, in order (the format each one ran for). A user switch
     * of format runs the selection slot twice (old button off, new button on), so it adds two entries.
     */
    ghost var formatChecks: seq<FileType>

    function CurrentInputs(): Inputs
      reads this
    {
      Inputs(filePath, fileType, loadAtText, entryPointText)
    }

    /** The OK button reflects the verdict for the current inputs. */
    ghost predicate Valid()
      reads this
    {
      okEnabled == (host.fileExists(filePath) && FormatCheck(host, CurrentInputs()))
    }

    /**
     * A new dialog: empty path (the path field's starting text comes from the dialog's form, which
     * this model takes to be empty), both hexadecimal fields at their default, the format
     * remembered in `store` selected, and the verdict computed for these inputs.
     */
    constructor (host: Host, store: TypeStore)
      modifies store`typeIndex
      ensures this.host == host && this.store == store
      ensures filePath == "" && loadAtText == DefaultHexText && entryPointText == DefaultHexText
      ensures fileType == FileTypeOf(store.typeIndex) && store.typeIndex == old(store.typeIndex)
      ensures params == None
      ensures Valid()
    {
      this.host := host;
      this.store := store;
      filePath := "";
      loadAtText := DefaultHexText;
      entryPointText := DefaultHexText;
      fileType := Assembly;
      okEnabled := false;
      params := None;
      formatChecks := [];
      new;
      InputTypeChanged(store.typeIndex);
      ValidateCurrentFile();
    }

    /**
     * The user checked button `checked`: it becomes the remembered default, its format becomes the
     * current one, and the current file is validated again under it.
     */
    method InputTypeChanged(checked: TypeButtonId)
      modifies store`typeIndex, this`fileType, this`okEnabled, this`formatChecks
      ensures store.typeIndex == checked
      ensures fileType == FileTypeOf(checked)
      ensures Valid()
      ensures formatChecks == old(formatChecks) + (if host.fileExists(filePath) then [fileType] else [])
    {
      store.typeIndex := checked;
      fileType := FileTypeOf(checked);
      ValidateCurrentFile();
    }

    /** Runs the check of the selected format (the ELF inspector for executables). */
    method FileTypeValidate() returns (ok: bool)
      modifies this`formatChecks
      ensures ok == FormatCheck(host, CurrentInputs())
      ensures formatChecks == old(formatChecks) + [fileType]
    {
      formatChecks := formatChecks + [fileType];
      match fileType {
        case Assembly =>
          ok := ValidateAssemblyFile(filePath);
        case FlatBinary =>
          ok := ValidateBinaryFile(loadAtText, entryPointText, host.parseHex32).Accepted();
        case Executable =>
          var info := ElfInspector.ValidateElfFile(host.readElf(filePath), host.isaMachineId, host.strings);
          ok := info.valid;
      }
    }

    /**
     * OK is enabled iff the file exists and the format check passes; the format check runs only
     * when the file exists.
     */
    method ValidateCurrentFile()
      modifies this`okEnabled, this`formatChecks
      ensures okEnabled <==> host.fileExists(filePath) && FormatCheck(host, CurrentInputs())
      ensures formatChecks == old(formatChecks) + (if host.fileExists(filePath) then [fileType] else [])
    {
      var filePathValid := host.fileExists(filePath);
      var fileTypeValid := false;
      if filePathValid {
        fileTypeValid := FileTypeValidate();
      }
      okEnabled := filePathValid && fileTypeValid;
    }

    /** Editing the path validates the new path at once. */
    method EditFilePath(text: string)
      modifies this`filePath, this`okEnabled, this`formatChecks
      ensures filePath == text
      ensures Valid()
      ensures formatChecks == old(formatChecks) + (if host.fileExists(text) then [fileType] else [])
    {
      filePath := text;
      ValidateCurrentFile();
    }

    /** Editing the load address validates the current file again. */
    method EditLoadAt(text: string)
      modifies this`loadAtText, this`okEnabled, this`formatChecks
      ensures loadAtText == text
      ensures Valid()
      ensures formatChecks == old(formatChecks) + (if host.fileExists(filePath) then [fileType] else [])
    {
      loadAtText := text;
      ValidateCurrentFile();
    }

    /** Editing the entry point validates the current file again. */
    method EditEntryPoint(text: string)
      modifies this`entryPointText, this`okEnabled, this`formatChecks
      ensures entryPointText == text
      ensures Valid()
      ensures formatChecks == old(formatChecks) + (if host.fileExists(filePath) then [fileType] else [])
    {
      entryPointText := text;
      ValidateCurrentFile();
    }

    /**
     * OK: the current inputs are copied into `params` without validating them again. Because OK is
     * enabled only while the verdict for the current inputs holds, accepted parameters describe an
     * existing file that passes its format check, and a flat binary's numbers are exactly what its
     * fields parse to.
     */
    method Accept()
      requires Valid()
      modifies this`params
      ensures params == Some(LoadParams(filePath, fileType, ParseOrZero(host, loadAtText), ParseOrZero(host, entryPointText)))
      ensures okEnabled ==> host.fileExists(params.value.filePath) && FormatCheck(host, CurrentInputs())
      ensures okEnabled && fileType == FlatBinary ==>
        host.parseHex32(loadAtText) == Some(params.value.binaryLoadAt) &&
        host.parseHex32(entryPointText) == Some(params.value.binaryEntryPoint)
    {
      params := Some(LoadParams(filePath, fileType, ParseOrZero(host, loadAtText), ParseOrZero(host, entryPointText)));
    }
  }
}
