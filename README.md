# TextExtract Pro: a Dafny model of the credit ledger, workspace and pricing flow

TextExtract Pro is a browser application. A user uploads an image and the
app sends it to Google's Gemini model to extract its text. Each extraction
costs one credit from a balance kept in local storage, and a pricing page
sells more credits through a simulated payment. This project models the
application's logic and proves what each step promises:

- `numbers.dfy` (module `Numbers`) models the JavaScript numbers the balance
  can hold: an integer or `NaN`. It also models `toString` and
  `parseInt(s, 10)`, which store and restore the balance.
- `app.dfy` (module `Ledger`, from `App.tsx`) models the app shell as class
  `App`. It holds the balance (`credits`), its copy in local storage
  (`storage`) and the current page (`Home` or `Pricing`). `deductCredit`,
  `addCredits` and `setCurrentPage` are methods. Each balance change is
  written to storage in the same step, which models the persisting effect.
  Pure functions `Apply`/`ApplyAll` describe the balance after a series of
  changes, and lemmas prove what such series do.
- `gemini.dfy` (module `Gemini`, from `services/geminiService.ts`) models the
  OCR gateway as pure functions. They strip the data-URL prefix
  (`split(',')[1]`), build the request (model id, the image's payload and
  MIME type, the fixed instruction) and map the outcome. Success gives the
  model's text, or "No text extracted." when that text is empty. Any failure
  gives "Failed to process image. Please try again.".
- `workspace.dfy` (module `Workspace`, from `components/OCRProcessor.tsx`)
  models the workspace as class `Processor`. Its fields are `file`,
  `preview`, `isProcessing`, `result`, `error` and `copied`, and it holds the
  shell it charges. It models the file validator, clearing, extraction
  gated by file and balance, copy and download.
- `pricing.dfy` (module `PricingPage`, from `components/Pricing.tsx`) has the
  fixed three-tier table as a function. Class `PricingView` holds the
  disabled buttons and the purchases waiting for their delay. A button is
  disabled exactly while a purchase made with it is pending. A purchase
  completes in a separate step, which adds the tier's value and returns
  to Home.
- The shell shows the workspace only on Home and the pricing view only on
  Pricing (`App.tsx:41-54`). Every page switch therefore unmounts the view
  shown so far, with all its state, and mounts a fresh one. `App.switches`
  counts the switches. Each `Processor` and `PricingView` is one mounting:
  user events on it require that it is still the one on screen (`Mounted()`),
  and coming back to a page means constructing a fresh object.
- `wrappers.dfy` holds `Option`. `None` stands for `null` or `undefined`.

Two behaviours of the code may be unexpected, and the model follows the code:

- One might expect an unparsable stored balance to fall back to 5.
  `App.tsx:11` keeps whatever `parseInt` returns, which is `NaN` for text
  like `"abc"`. The model keeps `NaN`. `Ledger.NaNPersists` proves that such
  a balance never recovers. `Workspace.Processor.HandleProcess` shows that
  every extraction then sends the user to the pricing page. The
  "Insufficient credits." message is set in the same update that unmounts
  the workspace, so it is never shown.
- One might expect a failed extraction to clear the result.
  `components/OCRProcessor.tsx:90-91` only sets `error`, and the model
  leaves `result` as it was.

## Model

| member | source | states |
|---|---|---|
| `Numbers.ToDecimal` | App.tsx:18 | `toString` of an integer is non-empty and starts with `-` exactly when the integer is negative |
| `Numbers.NatDigits` | App.tsx:18 | the decimal form of a natural number is a non-empty run of digits without a leading zero |
| `Numbers.ParseInt` | App.tsx:11 | `parseInt` answers `NaN` exactly when, after white space and one optional sign, no digit follows; a negative answer comes only from a leading `-` |
| `Numbers.NumberToString` | App.tsx:18 | `toString` is never empty, and it is `"NaN"` exactly for `NaN` |
| `Numbers.ParseToDecimal` | App.tsx:9-19 | `parseInt` reads back any integer `toString` wrote, also when non-digit text follows it |
| `Numbers.ParseNumberToString` | App.tsx:9-19 | `parseInt(n.toString())` gives back `n` for every modelled number, `NaN` included (in JavaScript only below 10^21 in magnitude; see Left out) |
| `Ledger.InitialCredits` | App.tsx:9-12 | with nothing stored, or an empty string, the balance starts at 5 |
| `Ledger.GetItem` | App.tsx:10 | a stored value is found exactly when the key is present, and it is the value stored under that key |
| `Ledger.ReloadRestores` | App.tsx:9-19 | a balance written under `ocr_app_credits` is restored unchanged at the next start-up (in JavaScript only below 10^21 in magnitude; see Left out) |
| `Ledger.Apply` | App.tsx:21-31 | a deduction takes one credit from a positive balance and leaves any other balance as it was; an addition adds exactly its amount to an integer balance and leaves `NaN` as `NaN` |
| `Ledger.ApplyAllNonNegative` | App.tsx:21-31 | from a non-negative balance, any series of deductions and non-negative additions keeps it a non-negative integer |
| `Ledger.ApplyAllExact` | App.tsx:21-31 | while the balance covers every deduction, none is refused: the result is start + added − deductions |
| `Ledger.NaNPersists` | App.tsx:21-31 | a `NaN` balance stays `NaN` through any deductions and additions |
| `Ledger.App.constructor` | App.tsx:9-19 | the balance is restored from storage, the page is Home, no switch has happened, and storage holds the balance's decimal form |
| `Ledger.App.DeductCredit` | App.tsx:21-27 | returns true and spends one credit exactly when the balance is positive; otherwise returns false and changes nothing; storage mirrors the balance |
| `Ledger.App.AddCredits` | App.tsx:29-31 | the balance grows by exactly the amount (`NaN` stays `NaN`); the page is unchanged; storage mirrors the balance |
| `Ledger.App.SetCurrentPage` | App.tsx:14 | only the page changes; a switch to the other page counts as one unmount-and-mount, setting the same page as none |
| `Gemini.Split` | services/geminiService.ts:17 | `split(',')` gives at least one field, and exactly one when the text has no comma |
| `Gemini.JoinSplit` | services/geminiService.ts:17 | splitting on commas loses nothing: joining the fields with commas gives the text back |
| `Gemini.SplitFieldsCommaFree` | services/geminiService.ts:17 | no field of `split(',')` contains a comma |
| `Gemini.StripDataUrlPrefix` | services/geminiService.ts:16-17 | the second field exists exactly when the data URL has a comma, and it contains no comma |
| `Gemini.StripDataUrl` | services/geminiService.ts:16-17 | for `data:<mime>;base64,<payload>` with comma-free parts, the stripped result is exactly the payload |
| `Gemini.BuildRequest` | services/geminiService.ts:32-47 | the request names model `gemini-2.5-flash` and holds the image's data with its MIME type, then the fixed instruction |
| `Gemini.RequestCarriesImage` | services/geminiService.ts:32-47 | the request carries model `gemini-2.5-flash`, the image's own payload and MIME type, and the fixed instruction |
| `Gemini.ResponseText` | services/geminiService.ts:49 | non-empty response text is returned unchanged; empty or absent text gives "No text extracted."; the result is never empty |
| `Gemini.PerformOcr` | services/geminiService.ts:28-54 | success exactly when the file was read and the service answered; then the text is non-empty and is the service's text when that is non-empty; every failure has the one generic message |
| `Workspace.Validate` | components/OCRProcessor.tsx:29-38 | accepts exactly images of at most 5,242,880 bytes; a non-image is refused for its type whatever its size; a larger image is refused for its size |
| `Workspace.ErrorText` | components/OCRProcessor.tsx:91 | the shown error is the thrown message when that is non-empty, and "An error occurred during processing." when it is empty |
| `Workspace.Processor.constructor` | components/OCRProcessor.tsx:15-20 | a workspace mounted on Home starts with all six state variables empty or false |
| `Workspace.Processor.ValidateAndSetFile` | components/OCRProcessor.tsx:29-49 | a rejection only sets `error`; an acceptance sets `file` and clears `error` and `result`; the preview is untouched |
| `Workspace.Processor.SelectFiles` | components/OCRProcessor.tsx:22-27 | only the first chosen file is validated: accepted, it becomes the file and clears `error` and `result`; rejected, only `error` is set; choosing nothing changes nothing |
| `Workspace.Processor.PreviewLoaded` | components/OCRProcessor.tsx:44-48 | when the reader finishes, the preview becomes its data URL, or null after a failed read; nothing else changes |
| `Workspace.Processor.ClearFile` | components/OCRProcessor.tsx:64-69 | file, preview, result and error are all cleared |
| `Workspace.Processor.HandleProcess` | components/OCRProcessor.tsx:71-95 | no file: nothing happens; balance ≤ 0: Pricing page (the workspace is unmounted), no charge, no call; `NaN`: Pricing page, with "Insufficient credits." set in the unmounted workspace; otherwise exactly one credit is spent and the workspace stays on screen, then the text becomes the result with no error, or the failure message becomes the error and the result is kept; never left processing; storage changes only under the balance's key |
| `Workspace.Processor.CopyToClipboard` | components/OCRProcessor.tsx:97-103 | copies and acknowledges only a present, non-empty result; otherwise nothing changes |
| `Workspace.Processor.CopiedExpired` | components/OCRProcessor.tsx:101 | the acknowledgment is reset and nothing else changes |
| `Workspace.Processor.DownloadText` | components/OCRProcessor.tsx:105-114 | a download exists exactly when there is a non-empty result: `extracted-text.txt`, `text/plain`, holding the result |
| `Workspace.GatewayOutcomeShown` | services/geminiService.ts:49-53 | a gateway failure always shows the gateway's own message, and a gateway success always leaves text to copy and download |
| `PricingPage.Tiers` | components/Pricing.tsx:13-41 | three tiers worth 5, 50 and 300 in that order; each tier's credits equal its value; only the second (Pro) is popular |
| `PricingPage.OnePopularTier` | components/Pricing.tsx:13-41 | the set of popular tiers is exactly {Pro} |
| `PricingPage.ButtonsAppend` | components/Pricing.tsx:45-46 | a new purchase adds exactly its focused button to those of the pending purchases |
| `PricingPage.DistinctAppend` | components/Pricing.tsx:45-46 | a purchase through a button with nothing pending keeps every pending button distinct |
| `PricingPage.PricingView.constructor` | components/Pricing.tsx:12 | a view mounted on Pricing has no button disabled and no purchase pending |
| `PricingPage.PricingView.HandlePurchase` | components/Pricing.tsx:43-47 | the focused (enabled) button is disabled and the purchase joins the pending ones, keeping "disabled exactly while pending" |
| `PricingPage.PricingView.CompletePurchase` | components/Pricing.tsx:48-52 | the oldest pending purchase adds its amount to the balance, the page becomes Home, its button is enabled again, and storage changes only under the balance's key |
| `PricingPage.PricingView.ClickTier` | components/Pricing.tsx:90-94 | clicking tier i's enabled button starts a purchase of that tier's value and disables that button alone |
| `PricingPage.BuyTier` | components/Pricing.tsx:43-53 | buying a tier and letting its delay run out adds exactly its value, shows Home (unmounting the view), leaves every button enabled and storage changed only under the balance's key |

## Left out

- Rendering: the JSX markup, CSS classes, the low-balance banner and the footer. Which view is mounted is modelled (`App.switches`, `Mounted()`); what each view draws is not.
- The low-balance banner's "Top up" link (`components/OCRProcessor.tsx:128`) and the header's links are page switches, that is `Ledger.App.SetCurrentPage`.
- `components/Header.tsx` is not part of this model. It only shows the balance and calls `setCurrentPage`, which is `Ledger.App.SetCurrentPage`.
- `types.ts`: only `AppState` is used, as `Ledger.Page`. `OcrResult` and `UserProfile.history` are never populated.
- The Gemini SDK call and `FileReader` are asynchronous foreign I/O. The reader's outcome (`Gemini.ReadOutcome`) and the service's answer (`Gemini.Reply`, a function of the request) are parameters. The workspace takes the settled outcome of `performOCR` as a parameter.
- `Workspace.Processor.HandleProcess` treats the awaited call as one atomic step. `isProcessing` is therefore false between events. Interleaving other events with a running extraction, such as clearing the file while it runs, is not modelled.
- `PricingPage.PricingView.CompletePurchase`: purchases wait in one queue per mounting of the view. When a view is left and a fresh one is mounted while purchases are still pending, the model does not order the old view's completions before the new view's.
- `Workspace.Processor.PreviewLoaded` and `Workspace.Processor.CopiedExpired` may still run on a workspace that has been unmounted, as their callbacks do; such updates are never shown.
- Real timing: the 800 ms purchase delay and the 2000 ms copy acknowledgment are explicit steps (`CompletePurchase`, `CopiedExpired`). Because every purchase waits the same delay, pending purchases complete in the order they were made.
- Browser side effects: the clipboard write is returned as a value, the Blob/anchor download as a `Download` record, and local storage is a `map` field.
- React semantics: batched updates and the `credits` value captured by each render's closures (as against `prev => prev - 1`). The model applies each update at once.
- `Numbers.ParseInt` skips only space, tab, LF, VT, FF and CR. JavaScript also skips other Unicode white space, such as no-break space and the line separators.
- Numbers are unbounded integers or `NaN`. Floating-point rounding of very large balances is not modelled, and neither are fractional, infinite or `-0` values.
- `Numbers.ParseNumberToString` and `Ledger.ReloadRestores` hold for the model's unbounded integers only. JavaScript's `toString` writes a number of magnitude 10^21 or more in exponent form (`"1e+21"`), and `parseInt` reads that back as `1`. In the source, the round trip therefore holds only below 10^21. Such a balance is reachable from a stored run of 22 or more digits.
- The console logging of OCR errors (`services/geminiService.ts:51`) is diagnostic output with no effect on state.
