/**
 * The workspace view: choosing an image, running an extraction against the
 * credit balance, and exporting the extracted text.
 */
module Workspace {
  import opened Wrappers
  import opened Numbers
  import opened Ledger
  import Gemini

  /** The attributes of a browser `File` the workspace looks at. */
  datatype FileInfo = FileInfo(name: string, mimeType: string, size: nat)

  /** The largest accepted file: 5 MiB. */
  const MaxFileSize := 5 * 1024 * 1024

  const InvalidTypeMessage := "Please select a valid image file."
  const TooLargeMessage := "File size exceeds 5MB."
  const InsufficientCreditsMessage := "Insufficient credits."
  const ProcessingErrorMessage := "An error occurred during processing."

  /** The name the downloaded text file gets. */
  const DownloadName := "extracted-text.txt"

  predicate IsImageType(mimeType: string) { "image/" <= mimeType }

  /**
   * The check on a chosen file: `None` accepts it, `Some(message)` rejects
   * it. The type is checked before the size.
   */
  function Validate(f: FileInfo): (rejection: Option<string>)
    ensures rejection == None <==> IsImageType(f.mimeType) && f.size <= 5242880
    ensures !IsImageType(f.mimeType) ==> rejection == Some(InvalidTypeMessage)
    ensures IsImageType(f.mimeType) && f.size > 5242880 ==> rejection == Some(TooLargeMessage)
  {
    if !IsImageType(f.mimeType) then Some(InvalidTypeMessage)
    else if f.size > MaxFileSize then Some(TooLargeMessage)
    else None
  }

  /** The message shown for a rejected extraction: `err.message || fallback`. */
  function ErrorText(message: string): (shown: string)
    ensures shown != ""
    ensures message != "" ==> shown == message
    ensures message == "" ==> shown == ProcessingErrorMessage
  {
    if message != "" then message else ProcessingErrorMessage
  }

  /** JavaScript truthiness of the `result` state: present and non-empty. */
  predicate HasText(result: Option<string>) { result.Some? && result.value != "" }

  /** The plain-text file `downloadText` hands to the browser. */
  datatype Download = Download(fileName: string, mimeType: string, content: string)

  /**
   * One mounting of the workspace: its state, and the shell whose balance and
   * page it uses. The shell shows it only on Home; leaving Home discards it,
   * and coming back mounts a fresh one.
   */
  class Processor {
    const app: App
    const mounting: nat
    var file: Option<FileInfo>
    var preview: Option<string>
    var isProcessing: bool
    var result: Option<string>
    var error: Option<string>
    var copied: bool

    /** Between events nothing is in flight, and the shell's balance is persisted. */
    ghost predicate Valid()
      reads this, app
    {
      app.Valid() && !isProcessing
    }

    /** This workspace is the one on screen: Home is shown and has not been left since it was mounted. */
    predicate Mounted()
      reads this, app
    {
      app.currentPage == Home && app.switches == mounting
    }

    /** Mounting the workspace on Home: every state variable starts empty. */
    constructor (shell: App)
      requires shell.Valid() && shell.currentPage == Home
      ensures Valid() && Mounted() && app == shell
      ensures file == None && preview == None && result == None && error == None
      ensures !isProcessing && !copied
    {
      app := shell;
      mounting := shell.switches;
      file, preview, result, error := None, None, None, None;
      isProcessing, copied := false, false;
    }

    /**
     * `validateAndSetFile`: a rejected file only sets `error`; an accepted
     * one becomes the file and clears `error` and `result`. The preview is
     * set later, when the reader finishes (see PreviewLoaded).
     */
    method ValidateAndSetFile(f: FileInfo)
      requires Valid() && Mounted()
      modifies this
      ensures Valid() && Mounted()
      ensures Validate(f).Some? ==>
        error == Validate(f) && file == old(file) && result == old(result)
      ensures Validate(f).None? ==>
        error == None && result == None && file == Some(f)
      ensures preview == old(preview) && copied == old(copied)
    {
      if !IsImageType(f.mimeType) {
        error := Some(InvalidTypeMessage);
        return;
      }
      if f.size > MaxFileSize {
        error := Some(TooLargeMessage);
        return;
      }
      error := None;
      result := None;
      file := Some(f);
    }

    /** `handleFileChange` and `handleDrop`: only the first chosen file is looked at. */
    method SelectFiles(files: seq<FileInfo>)
      requires Valid() && Mounted()
      modifies this
      ensures Valid() && Mounted()
      ensures files == [] ==> file == old(file) && error == old(error) && result == old(result)
      ensures files != [] && Validate(files[0]).None? ==>
        file == Some(files[0]) && error == None && result == None
      ensures files != [] && Validate(files[0]).Some? ==>
        file == old(file) && error == Validate(files[0]) && result == old(result)
      ensures preview == old(preview) && copied == old(copied)
    {
      if files != [] {
        ValidateAndSetFile(files[0]);
      }
    }

    /**
     * The reader's `onloadend` for an accepted file: the preview shows the
     * data URL it read, or nothing when the read failed (`reader.result` is
     * then null).
     */
    method PreviewLoaded(read: Gemini.ReadOutcome)
      requires Valid()
      modifies this
      ensures Valid()
      ensures preview == (if read.Loaded? then Some(read.dataUrl) else None)
      ensures file == old(file) && result == old(result) && error == old(error) && copied == old(copied)
    {
      match read
      case Loaded(dataUrl) => preview := Some(dataUrl);
      case ReadError => preview := None;
    }

    /** `clearFile`: file, preview, result and error are all cleared together. */
    method ClearFile()
      requires Valid() && Mounted()
      modifies this
      ensures Valid() && Mounted()
      ensures file == None && preview == None && result == None && error == None
      ensures copied == old(copied)
    {
      file := None;
      preview := None;
      result := None;
      error := None;
    }

    /**
     * `handleProcess`, with the call to `performOCR` taken as one step whose
     * outcome is `ocr`. `called` tells whether that call is made. Every path
     * that switches to Pricing unmounts this workspace, so what it last set
     * there is never shown.
     */
    method HandleProcess(ocr: Gemini.OcrOutcome) returns (called: bool)
      requires Valid() && Mounted()
      modifies this, app
      ensures Valid()
      ensures called <==> old(file).Some? && IsPositive(old(app.credits))
      ensures app.credits == (if called then Apply(old(app.credits), Deduct) else old(app.credits))
      ensures app.storage == old(app.storage)[StorageKey := NumberToString(app.credits)]
      ensures app.switches == if app.currentPage == Pricing then old(app.switches) + 1 else old(app.switches)
      // no file: nothing changes
      ensures old(file).None? ==>
        Mounted() && result == old(result) && error == old(error)
      // a balance of zero or less: off to the pricing page, nothing spent
      ensures old(file).Some? && AtMostZero(old(app.credits)) ==>
        app.currentPage == Pricing && !Mounted()
      // a NaN balance passes the first check but `deductCredit` refuses it;
      // the message is set in the same update that leaves for Pricing
      ensures old(file).Some? && old(app.credits).NaN? ==>
        app.currentPage == Pricing && !Mounted() && error == Some(InsufficientCreditsMessage)
      // the call is made: exactly one credit is spent, whatever its outcome
      ensures called ==> app.credits == Int(old(app.credits).value - 1) && Mounted()
      ensures called && ocr.Extracted? ==> result == Some(ocr.text) && error == None
      ensures called && ocr.Failed? ==> result == old(result) && error == Some(ErrorText(ocr.message))
      ensures file == old(file) && preview == old(preview) && copied == old(copied)
    {
      if file.None? {
        return false;
      }
      if AtMostZero(app.credits) {
        app.SetCurrentPage(Pricing);
        return false;
      }
      isProcessing := true;
      error := None;
      var deducted := app.DeductCredit();
      if deducted {
        called := true;
        match ocr
        case Extracted(text) =>
          result := Some(text);
        case Failed(message) =>
          error := Some(ErrorText(message));
      } else {
        called := false;
        error := Some(InsufficientCreditsMessage);
        app.SetCurrentPage(Pricing);
      }
      isProcessing := false;
    }

    /**
     * `copyToClipboard`: with text to copy, hands it to the clipboard and
     * shows the acknowledgment; otherwise does nothing.
     */
    method CopyToClipboard() returns (clipboard: Option<string>)
      requires Valid() && Mounted()
      modifies this
      ensures Valid() && Mounted()
      ensures clipboard == (if HasText(result) then result else None)
      ensures copied == (HasText(result) || old(copied))
      ensures file == old(file) && preview == old(preview) && result == old(result) && error == old(error)
    {
      if result.Some? && result.value != "" {
        clipboard := result;
        copied := true;
      } else {
        clipboard := None;
      }
    }

    /** The acknowledgment's timer running out. */
    method CopiedExpired()
      requires Valid()
      modifies this
      ensures Valid()
      ensures !copied
      ensures file == old(file) && preview == old(preview) && result == old(result) && error == old(error)
    {
      copied := false;
    }

    /** `downloadText`: the text file offered for download, if there is text. */
    method DownloadText() returns (download: Option<Download>)
      requires Mounted()
      ensures download.Some? <==> HasText(result)
      ensures download.Some? ==>
        download.value == Download(DownloadName, "text/plain", result.value)
    {
      if result.None? || result.value == "" {
        return None;
      }
      download := Some(Download(DownloadName, "text/plain", result.value));
    }
  }

  /**
   * Whatever the gateway settles with, the workspace never falls back to its
   * own generic message, and a successful extraction always leaves text that
   * can be copied and downloaded.
   */
  lemma GatewayOutcomeShown(mimeType: string, read: Gemini.ReadOutcome, service: Gemini.Request -> Gemini.Reply)
    ensures var ocr := Gemini.PerformOcr(mimeType, read, service);
      (ocr.Failed? ==> ErrorText(ocr.message) == Gemini.FailureMessage) &&
      (ocr.Extracted? ==> HasText(Some(ocr.text)))
  {
  }
}
