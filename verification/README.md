# Client-side state of the document-custody front-end

This project models the views of a React front-end for a document-custody
system. Users upload files, the backend groups them into blocks and mines
those blocks. The front-end holds no algorithm of its own. What it does hold
is per-view state (the React `useState` slots) and the rules by which each
handler changes that state once a request to the backend has finished.

Each view is a Dafny `class` whose fields are its state slots. Each handler
is a method that takes the network outcome as a parameter. That outcome is
`Net.Response<T>`: `Ok(body)`, `NotOk` (a response whose `ok` flag is false)
or `Threw(thrown)` (a rejected `fetch` or a body that failed to parse). A
thrown value is either an `Error` with a message or something else
(`Net.Thrown`). Each method's contract says which fields change, to what,
and which stay as they were. The pure parts are functions with lemmas about
them:

- the file-type display table;
- the rule that offers "Minar" only on the first unmined block;
- the local `isMined` update after a mine;
- the delete filter;
- the choice between `/edit` and `/add`;
- the display predicates;
- JavaScript's `String.split`, as used to pull the base64 payload out of a data URL.

Modules: `Net` (outcomes), `Blocks` (block list), `Documents` (document
list), `Settings` (system-configuration editor), `Audit` (audit-log viewer),
`Upload` (upload form).

Where the design description and the code disagree, the model follows the code:

- The block view and the document view have no selection sets, no
  pending-count threshold before mining, no combined create-and-mine
  request, no chain validation and no zip download.
- Documents in the document view have no `blockId`.
- The mine request is sent for whichever block's button was pressed. Mining
  one block at a time is enforced only by rendering the button on the first
  unmined block (`Blocks.OffersMineIff`).
- The upload sends the browser's bare MIME type as `fileType` (for example
  `application/pdf`), not the composite tag (`application/pdf.pdf`), and
  rejects no MIME type on the client.
- The block view's display table is keyed by composite tags. A bare MIME
  type shows as "Desconocido" there (`Blocks.BareMimeTypesAreUnknown`)
  unless the backend appends the extension. The backend is not part of this
  model.
- A non-ok document fetch in the document view is only logged. It sets no
  error.

## Model

| member | source | states |
|---|---|---|
| `Net.CaughtMessage` | src/components/AuditLogViewer.tsx:27 | A caught `Error` shows its own message; any other thrown value shows the handler's fallback text |
| `Blocks.MimeToName` | src/components/BlockView.tsx:36-47 | A tag in the 10-entry table maps to its entry, which is one of the ten short names; any other tag maps to "Desconocido"; the result is a short name iff the tag is in the table |
| `Blocks.MimeToNameExamples` | src/components/BlockView.tsx:36-47 | The table has 10 entries; `application/pdf.pdf` maps to `pdf`, `application/vnd.ms-excel.excel` to `xls`, an unlisted tag to "Desconocido" |
| `Blocks.BareMimeTypesAreUnknown` | src/components/BlockView.tsx:186 | Bare MIME types without the extension suffix (`application/pdf`, `image/png`, …) display as "Desconocido" |
| `Blocks.FirstUnmined` | src/components/BlockView.tsx:201 | `findIndex(b => !b.isMined)`: -1 iff every block is mined; otherwise an index of an unmined block with every earlier block mined |
| `Blocks.OffersMine` | src/components/BlockView.tsx:201 | The render condition `!block.isMined && blocks.findIndex(b => !b.isMined) === index` of the "Minar" button |
| `Blocks.OffersMineIff` | src/components/BlockView.tsx:201 | "Minar" is rendered at index i iff block i is unmined and every earlier block is mined |
| `Blocks.AtMostOneOffer` | src/components/BlockView.tsx:201 | Two blocks that both render "Minar" are the same block |
| `Blocks.OfferExistsIffSomeUnmined` | src/components/BlockView.tsx:201 | Some block renders "Minar" iff some block is unmined, so none does when all are mined |
| `Blocks.MarkMined` | src/components/BlockView.tsx:141-143 | The list keeps its length and order; each block keeps id, date and documents; a block is mined afterwards iff it was mined before or carries `blockId`; blocks with another id are identical to before |
| `Blocks.FirstUnminedAfterMark` | src/components/BlockView.tsx:141-143 | After marking `blockId` mined, the first unmined block is the first block that was unmined and has a different id, or there is none |
| `Blocks.GateMovesAfterMine` | src/components/BlockView.tsx:139-144 | With unique ids, mining the block that holds the button moves the button to the next unmined block after it, or removes it when all later blocks are mined |
| `Blocks.UserName` | src/components/BlockView.tsx:31-33 | No token gives an empty user name; decoded claims give their `unique_name` |
| `Blocks.BlockView.constructor` | src/components/BlockView.tsx:28-33 | Initial state: no blocks, empty error, no configuration, user name from the token |
| `Blocks.BlockView.FetchBlocks` | src/components/BlockView.tsx:50-69 | An ok fetch replaces `blocks` wholesale and keeps `error`; a non-ok one sets "Error al obtener los bloques."; a thrown one sets the caught message; failures keep `blocks` |
| `Blocks.BlockView.FetchSystemConfig` | src/components/BlockView.tsx:71-90 | An ok fetch stores the body (possibly null); failures set `error` and keep the stored configuration; `blocks` is never touched |
| `Blocks.BlockView.HandleMine` | src/components/BlockView.tsx:96-162 | Without a configuration: no request, `blocks` unchanged, error "No se ha cargado la configuración del sistema.". Otherwise the request carries `blockId` and the configured `quantityOfZeros` unmodified; a truthy ok reply sets `blocks` to `MarkMined(old blocks, blockId)`; a falsy one changes nothing; non-ok or thrown set `error` and keep `blocks`. With unique ids, after mining the block that held "Minar", the button is rendered exactly at the next unmined block after it (or nowhere) |
| `Blocks.BlockView.MineButtonAt` | src/components/BlockView.tsx:201 | The line-201 condition evaluated on the view's current `blocks`; `HandleMine` states where it holds after the block holding the button is mined |
| `Blocks.BlockView.ShortNamesOf` | src/components/BlockView.tsx:184-186 | One display name per document of the block, each the table lookup of that document's `fileType` |
| `Documents.RemoveById` | src/components/FileView.tsx:81 | The filter keeps exactly the documents whose id differs (membership both ways); its length is the old length minus the number of entries with that id |
| `Documents.RemoveByIdAppend` | src/components/FileView.tsx:81 | The filter distributes over concatenation, so survivors keep their relative order |
| `Documents.RemoveAbsentId` | src/components/FileView.tsx:81 | Filtering an id that no entry carries leaves the list unchanged |
| `Documents.RemoveListedDocument` | src/components/FileView.tsx:79-81 | With unique ids, deleting the document at position k leaves exactly the documents before and after it, one fewer than before |
| `Documents.FileView.constructor` | src/components/FileView.tsx:19-21 | Initial state: no documents, no configuration, empty error |
| `Documents.FileView.FetchDocuments` | src/components/FileView.tsx:24-42 | An ok fetch replaces `documents`; a non-ok one changes neither `documents` nor `error`; a thrown one sets `error` and keeps `documents` |
| `Documents.FileView.FetchSystemConfig` | src/components/FileView.tsx:44-62 | The same outcome handling for the stored `maxDocs` configuration; `documents` is never touched |
| `Documents.FileView.HandleDelete` | src/components/FileView.tsx:74-85 | The DELETE names `document.id`; only an ok reply changes `documents`, to `RemoveById(old documents, document.id)`; a non-ok or thrown reply changes nothing; `error` is never set |
| `Settings.SaveRequestFor` | src/components/SystemConfig.tsx:34-85 | The request goes to `/edit` iff an edit copy exists, and then carries exactly that copy; otherwise it goes to `/add` with the three form values |
| `Settings.EditButtonShown` | src/components/SystemConfig.tsx:121 | The "Edit" buttons' condition: inside the `config ?` branch (line 92) and `!editableConfig` (lines 121, 149, 177) |
| `Settings.SaveButtonShown` | src/components/SystemConfig.tsx:194 | The "Guardar Cambios" condition: inside the `config ?` branch (line 92) and `editableConfig &&` (line 194) |
| `Settings.AddFormShown` | src/components/SystemConfig.tsx:92 | The add-form is the `: (<form …>)` branch of `config ?` (lines 92, 200-201) |
| `Settings.ExactlyOneControl` | src/components/SystemConfig.tsx:92-201 | In every state exactly one of the "Edit" buttons, the "Guardar Cambios" button and the add-form is rendered |
| `Settings.SaveFollowsScreen` | src/components/SystemConfig.tsx:194-201 | "Guardar Cambios" always posts the edit copy to `/edit`; the add-form (no edit copy) always posts its fields to `/add` |
| `Settings.SystemConfigView.constructor` | src/components/SystemConfig.tsx:12-17 | Initial state: the three form fields 0, no configuration, no edit copy, empty error |
| `Settings.SystemConfigView.FetchConfig` | src/components/SystemConfig.tsx:20-29 | An ok fetch stores the body (possibly null); a failure sets `error` and keeps `config`; the edit copy and form fields are untouched |
| `Settings.SystemConfigView.ToggleEdit` | src/components/SystemConfig.tsx:121-126 | With no edit copy, pressing "Edit" creates one that equals the stored configuration field for field; an existing copy is dropped |
| `Settings.SystemConfigView.EditMaxDocs` | src/components/SystemConfig.tsx:114 | Sets the copy's `maxDocs`; the other two fields are untouched |
| `Settings.SystemConfigView.EditProcessTime` | src/components/SystemConfig.tsx:142 | Sets the copy's `processTime`; the other two fields are untouched |
| `Settings.SystemConfigView.EditQuantityOfZeros` | src/components/SystemConfig.tsx:170 | Sets the copy's `quantityOfZeros`; the other two fields are untouched |
| `Settings.SystemConfigView.SetFormMaxDocs` | src/components/SystemConfig.tsx:209 | The add-form's `maxDocs` input sets only that slot |
| `Settings.SystemConfigView.SetFormProcessTime` | src/components/SystemConfig.tsx:220 | The add-form's `processTime` input sets only that slot |
| `Settings.SystemConfigView.SetFormQuantityOfZeros` | src/components/SystemConfig.tsx:231 | The add-form's `quantityOfZeros` input sets only that slot |
| `Settings.SystemConfigView.HandleSaveOrUpdate` | src/components/SystemConfig.tsx:34-85 | The request is `SaveRequestFor` the current state; the page reloads iff the reply is ok; a non-ok reply sets the edit or add error text; a thrown one sets its message; only `error` may change |
| `Audit.ShowsTable` | src/components/AuditLogViewer.tsx:72 | The table condition `!loading && logs.length > 0` |
| `Audit.NoError` | src/components/AuditLogViewer.tsx:98 | `!error` for a slot holding a string or null: null or the empty string counts as no error |
| `Audit.ShowsEmptyNotice` | src/components/AuditLogViewer.tsx:98 | The notice condition `!loading && logs.length === 0 && !error` |
| `Audit.TableAndNoticeExclusive` | src/components/AuditLogViewer.tsx:72-98 | The table and the empty notice are never rendered together, neither while loading; once loaded and with no error (null or empty message), exactly one of them is |
| `Audit.AuditLogViewer.constructor` | src/components/AuditLogViewer.tsx:12-14 | Initial state: no logs, loading, no error |
| `Audit.AuditLogViewer.BeginFetchLogs` | src/components/AuditLogViewer.tsx:18 | Entering `fetchLogs` sets `loading` and nothing else |
| `Audit.AuditLogViewer.FinishFetchLogs` | src/components/AuditLogViewer.tsx:19-30 | `loading` is false afterwards whatever the outcome; an ok reply replaces `logs`; a failure sets `error` and keeps `logs`; a set error stays set; afterwards the table shows iff there are logs and the notice iff there are none and no (or an empty) error |
| `Audit.AuditLogViewer.FetchLogs` | src/components/AuditLogViewer.tsx:17-31 | `loading` is true while the request is in flight and false on exit, with the outcome handling of `FinishFetchLogs` |
| `Audit.AuditLogViewer.ClearLogs` | src/components/AuditLogViewer.tsx:39-63 | Without confirmation: no request and no change. With it: `logs` becomes empty only on an ok reply; a failure sets `error` and keeps `logs`; `loading` is never touched; a set error stays set; after a confirmed successful clear the table is gone and the notice shows iff not loading and there is no (or an empty) error |
| `Audit.AuditLogViewer.TableShown` | src/components/AuditLogViewer.tsx:72 | The table condition on the view's current state; after a fetch it holds iff there are logs, and after a confirmed successful clear it does not hold |
| `Audit.AuditLogViewer.EmptyNoticeShown` | src/components/AuditLogViewer.tsx:98 | The notice condition on the view's current state; after a fetch it holds iff there are no logs and no (or an empty) error, never together with the table |
| `Upload.Split` | src/components/FileUpload.tsx:28 | `split(',')` returns at least one piece and no piece contains the separator |
| `Upload.JoinSplit` | src/components/FileUpload.tsx:28 | Joining the pieces with the separator gives back the split string |
| `Upload.SplitJoin` | src/components/FileUpload.tsx:28 | Splitting separator-free pieces joined by the separator gives back the pieces |
| `Upload.ExtractBase64` | src/components/FileUpload.tsx:28 | The extracted content never contains a comma; a null reader result gives `''` |
| `Upload.ExtractWithoutComma` | src/components/FileUpload.tsx:28 | A string without a comma gives `''` |
| `Upload.ExtractSegment` | src/components/FileUpload.tsx:28 | The content is the part after the first comma up to the next comma or the end of the string, possibly empty |
| `Upload.DataUrlRoundTrip` | src/components/FileUpload.tsx:28 | For a data URL `header,payload` with a comma-free header and payload, the extracted content is exactly the payload |
| `Upload.FileUpload.constructor` | src/components/FileUpload.tsx:14-15 | Initial state: no file, empty owner |
| `Upload.FileUpload.HandleFileChange` | src/components/FileUpload.tsx:18-21 | `file` becomes the first selected file, or none when the list is missing or empty |
| `Upload.FileUpload.SetOwner` | src/components/FileUpload.tsx:80 | The owner input sets `owner` |
| `Upload.FileUpload.HandleSubmit` | src/components/FileUpload.tsx:34-67 | A request is made iff a file is chosen, the owner is non-empty and the read succeeds. The DTO copies `owner`, the file's bare MIME type and its size unmodified, and carries the extracted content. A missing input gives the missing-input alert; the reply selects the success or failure alert, and a thrown one gives none. No state changes |

## Left out

- Network calls, HTTP, JSON parsing and the backend's behaviour (mining, chain validation) are not modelled. Each handler receives the outcome of its request as a parameter.
- Async interleaving and React state batching are not modelled; handlers run one after the other. The stale `blocks` closure that `handleMine` reads is modelled as the current `blocks`.
- UI side effects are not modelled: `Swal.fire` dialogs, `alert`, `console.*`, JSX and styles. The upload's alerts are kept as a returned `Notice`. The configuration save's `window.location.reload` is kept as a returned `reloads` flag.
- Token decoding (`atob` and `JSON.parse` of the token's middle segment) is not modelled. The constructor receives the decoded claims, or none when there is no token. A malformed token, which makes the view throw, is not modelled.
- `FileReader` is not modelled. `HandleSubmit` receives the reader's outcome, and only the string step `split(',')[1] || ''` is modelled.
- The file-type table is a plain map. Tags that name inherited `Object.prototype` properties (`constructor`, `toString`, …) would yield a function rather than "Desconocido" in the source; the model does not capture that.
- `Number(e.target.value)` parsing is not modelled; numeric inputs take an already-parsed integer, so NaN and fractional values are out of scope. Floating-point size display (`toFixed`) and date formatting are left out too.
- Settings.SystemConfigView.FetchConfig: when a non-`Error` value is thrown, `err.message` is `undefined` in the source; the model stores `""`. Both are falsy, so no error alert is shown either way.
- Settings.SystemConfigView.HandleSaveOrUpdate: when a non-`Error` value is thrown by the edit or add request, `err.message` is `undefined` in the source; the model stores `""`. Both are falsy, so no error alert is shown either way.
- The document view's "Descargar" handler only shows an alert, and its "Subir al bloque" button has no handler. Neither is modelled.
- LoginForm, RegisterForm, NavBar, App and ProtectedRoute (forms, routing and toggles) are not part of this model.
