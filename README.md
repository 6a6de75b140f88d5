# UserCSS popup: the per-hostname stylesheet store and its state machine

The popup of the UserCSS extension links a stylesheet to each website hostname. Its `App` component
keeps three things in step with the persistent key-value store:

- the in-memory hostname index (`hostnameSet`, hostname ↦ `true`, mirrored under `HOSTNAME_SET`);
- the selected hostname (`hostname`, where `""` means nothing is selected), mirrored under
  `LAST_SELECTED_HOST_NAME`;
- the "save as hostname" field (`hostnameInputValue`) and the editor's text.

It also holds the two flags of the import button.

The model has two modules.

- `PopupModel` (popup_model.dfy) works on values. `State` holds the three kinds of storage entry:
  `store` (one body per hostname), `storedIndex` (the `HOSTNAME_SET` entry) and `storedLast`
  (the `LAST_SELECTED_HOST_NAME` entry). It also holds the component state. Each handler is a
  function from state to state, and every effect it triggers runs to completion inside it.
  The function contracts state what each transition does. The lemmas relate several
  transitions: the save/select round trip, idempotent saves, the mount order, import followed by a
  reopen, and invariants that hold across any run of user actions (`Step`, `Run`).
- `PopupApp` (popup_app.dfy) is the component as an object. Class `App` has these fields, and each
  handler and effect is a method that updates them step by step. The remove handler's
  `forEach` copy is the loop in `CopyWithout`. Each method's `ensures` gives its new state as the
  `PopupModel` transition of the old state, so everything proved there holds for the object.

How the code behaves, and how the model follows it:

- `hostnameSet` is a plain object. Save adds the input `h` unless `hostnameSet[h]` is truthy
  (line 168). Startup restores the last selection only if `hostnameSet[last]` is truthy (line 75).
  For an own key this means the key's flag is `true`, which is `Listed(index, h)`. For a name that
  is not an own key, JavaScript finds the members inherited from `Object.prototype` (such as
  `toString`), which are truthy. The model uses `Listed`, and "## Findings" records what the
  inherited lookup does (`Truthy`, `SaveAsWritten`, `StartupAsWritten`).
- `setHostname(h)` with the value already held does not re-run the selection effect, because React
  skips an update to the same value. So Save of the hostname that is already selected reloads
  neither the input nor the editor. Remove with nothing selected resets neither of them.
- The remove button has no disabled guard (lines 233-236). Remove with nothing selected therefore
  runs, and it drops the key `""` if there is one.
- Storage calls are synchronous. The two reserved storage keys are separate fields, so no hostname
  can collide with them.

## Model

| member | source | states |
|---|---|---|
| PopupModel.SelectionEffect | src/popup.tsx:104-122 | a non-empty selection is written as last selected; the input becomes the selection; a present editor shows "" for no selection, else the stored body; an absent editor is untouched; storage bodies, index and flags are unchanged |
| PopupModel.Startup | src/popup.tsx:71-78 | the index becomes the stored index (or `{}`) and is written back; the selection is the last-selected hostname when the loaded index lists it, else ""; a changed selection is settled by the selection effect; with nothing restored the last-selected entry is not written |
| PopupModel.CreateEditor | src/popup.tsx:81-96 | the editor exists and the selection effect has run for the current selection; with nothing selected the last-selected entry is not written; storage and index unchanged |
| PopupModel.Mount | src/popup.tsx:54-96 | after opening, the selection is the stored last selection when the loaded index lists it, else "" (and then the last-selected entry is untouched); the editor shows the settled selection; the stored index equals the in-memory index, which is the stored one or `{}`; the import button is disabled and not done |
| PopupModel.Select | src/popup.tsx:127-135 | the selection becomes h; picking the current value changes nothing; otherwise input = h, h becomes last selected if non-empty, and the editor shows h's body ("" for none); storage, index and flags unchanged |
| PopupModel.EditInput | src/popup.tsx:138-143 | only the input field changes, to the typed value |
| PopupModel.EditBuffer | src/popup.tsx:176 | only the editor text changes, to what the user typed; the text that Save reads is user-supplied |
| PopupModel.Remove | src/popup.tsx:146-157 | new index keys = old keys minus the selection, values unchanged, written to storage; selection ""; the stored body under the removed hostname stays; input and editor are cleared only if something was selected (an own `__proto__` key is kept, see "## Left out") |
| PopupModel.Save | src/popup.tsx:160-181 | no editor: nothing changes; else index = old index with h ↦ true (not rewritten when h was listed), stored body of h = editor text, other bodies unchanged, selection and input = h, editor text kept |
| PopupModel.PickImportFile | src/popup.tsx:183-186 | import button disabled exactly when no file is chosen; nothing else changes |
| PopupModel.Import | src/popup.tsx:188-201 | no file or failed import: nothing changes; success: done and disabled, every imported body, the index entry and the last-selected entry it carries overwrite storage, all else in storage unchanged; in-memory index, selection, input and editor untouched |
| PopupModel.SaveThenReselect | src/popup.tsx:168-180 | after saving h with text t and picking any other option, picking h again shows t |
| PopupModel.SaveIdempotent | src/popup.tsx:166-181 | saving twice with the same input and text gives exactly the state of one save |
| PopupModel.RemoveWithNothingSelected | src/popup.tsx:146-157 | with nothing selected and no "" key, remove only rewrites the stored index with the unchanged index |
| PopupModel.MountOrderIrrelevant | src/popup.tsx:71-96 | the startup load and the editor creation give the same state in either order |
| PopupModel.MountWithoutData | src/popup.tsx:71-78 | with no stored data: index `{}`, nothing selected, empty editor |
| PopupModel.MountStaleLastSelected | src/popup.tsx:75 | a last-selected hostname not listed in the stored index is not restored |
| PopupModel.SaveAsWritten | src/popup.tsx:160-181 | save with the lookup of line 168 as JavaScript evaluates it: the index is extended only when `hostnameSet[h]` is not truthy, the body is stored and h is selected |
| PopupModel.StartupAsWritten | src/popup.tsx:71-78 | startup with the lookup of line 75 as JavaScript evaluates it: the last selection is restored when `hostnameSet[last]` is truthy, inherited members included |
| PopupModel.SaveAsWrittenLeavesUnlisted | src/popup.tsx:168-180 | as written, saving under an inherited name such as `toString` that is not a key selects it and stores its body but never lists it; the corrected Save lists it |
| PopupModel.StartupAsWrittenRestoresUnlisted | src/popup.tsx:75 | as written, a stored last selection named after an inherited member is restored although the index lacks it; the corrected Startup restores nothing |
| PopupModel.AsWrittenAgreesOffInherited | src/popup.tsx:71-181 | for hostnames that are keys or not inherited names, the as-written and corrected Save and Startup are equal |
| PopupModel.ImportThenReopen | src/popup.tsx:193-198 | an import leaves memory stale; reopening loads the imported index, restores the imported selection and shows its imported body |
| PopupModel.StepKeepsConsistent | src/popup.tsx:127-201 | every user action keeps the selection listed and every listed hostname with a stored body |
| PopupModel.StepKeepsPersisted | src/popup.tsx:99-101 | every user action except an import carrying an index keeps the stored index equal to the in-memory one |
| PopupModel.RunKeepsConsistent | src/popup.tsx:127-201 | any sequence of user actions keeps consistency |
| PopupModel.RunKeepsPersisted | src/popup.tsx:99-101 | any sequence of actions without an index-replacing import keeps the stored index equal to the in-memory one |
| PopupModel.MountThenRun | src/popup.tsx:54-201 | opening over consistent storage and then any run of actions is consistent |
| PopupApp.CopyWithout | src/popup.tsx:147-153 | the `forEach` copy yields exactly the old index without the selected key (an own `__proto__` key is kept, see "## Left out") |
| PopupApp.App.constructor | src/popup.tsx:54-66 | the `useState` initial values over the storage at opening |
| PopupApp.App.ApplyHostname | src/popup.tsx:104-122 | new state = `SelectionEffect` of the old |
| PopupApp.App.SetHostname | src/popup.tsx:132 | the effect runs only when the selection changes |
| PopupApp.App.SetHostnameSet | src/popup.tsx:99-101 | index replaced and written to storage |
| PopupApp.App.LoadInitialHostname | src/popup.tsx:71-78 | new state = `Startup` of the old (own-key lookup at line 75, see "## Findings"); the selection stays listed |
| PopupApp.App.CreateEditor | src/popup.tsx:81-96 | new state = `CreateEditor` of the old |
| PopupApp.App.OnHostnameSelectChange | src/popup.tsx:127-135 | new state = `Select` of the old |
| PopupApp.App.OnHostnameInputChange | src/popup.tsx:138-143 | new state = `EditInput` of the old |
| PopupApp.App.OnEditorChange | src/popup.tsx:176 | new state = `EditBuffer` of the old |
| PopupApp.App.OnRemoveHostnameButtonClick | src/popup.tsx:146-157 | new state = `Remove` of the old |
| PopupApp.App.OnSaveButtonClick | src/popup.tsx:160-181 | new state = `Save` of the old (own-key lookup at line 168, see "## Findings") |
| PopupApp.App.OnImportInputChange | src/popup.tsx:183-186 | new state = `PickImportFile` of the old |
| PopupApp.App.OnImportButtonClick | src/popup.tsx:188-201 | new state = `Import` of the old |

## Left out

- Rendering, the option markup and the button labels (src/popup.tsx:207-305). They are UI. The
  model keeps only their gates: the selector offers "" and the index keys; Save is enabled for a
  non-empty input; Import is enabled when not disabled.
- Monaco editor construction, its placeholder text, its options and the worker-URL hook
  (src/popup.tsx:21-42, 81-96). They are widget setup. They are reduced to `editorPresent` and to
  the editor text, which the selection effect overwrites once the editor exists.
- `useSaveOnCtrlS` and `useWordWrapChecked`. They are keyboard and word-wrap hooks whose code is
  not part of this model.
- The internals of `getHostnameSet`, `importDataToStorage` and `downloadDataAsJson`: JSON parsing
  and serialisation, the download and the storage calls. Their code is not part of this model.
  The import's outcome is a parameter: `None` for a failure, or the parsed entries, which are written
  over storage key by key. All-or-nothing atomicity is therefore assumed, not proved.
- The export button (src/popup.tsx:203-205). It changes no popup state, and the download is I/O.
- Reading the chosen file with `File.text()`. This is I/O; the file's presence is a parameter.
- The run of the index-persistence effect on the first render, which writes `{}`. The startup read
  was issued before it and the loaded index is written right after it, so the final state is the
  same. Storage-call ordering and React scheduling are not modelled; every operation is atomic.
- The string values of `HOSTNAME_SET` and `LAST_SELECTED_HOST_NAME`. They are kept apart from
  hostname keys by construction.
- A missing `LAST_SELECTED_HOST_NAME` entry is `None`. In JavaScript it would be looked up as the
  key `"undefined"`; that corner case is not modelled.
- What `getStorageItem` and `getHostnameSet` yield is assumed, because their code is not part of
  this model. A hostname with no stored body reads as `""` (`Body`). This case is reachable: an
  import can carry a `HOSTNAME_SET` that lists a hostname without its body, and a reopen then
  selects it. The real call may hand `undefined` to `editor.setValue`, which is not modelled. A
  missing or unparseable `HOSTNAME_SET` entry loads as `{}` (`LoadIndex`).
- PopupModel.Save: looks up the index by own key (`Listed`) at line 168. An input named after an
  `Object.prototype` member that is not a key is therefore listed, which the code as written does
  not do. The as-written behaviour is `SaveAsWritten`, recorded under "## Findings".
- PopupModel.Startup: looks up the index by own key (`Listed`) at line 75, so an inherited name is
  not restored. The as-written behaviour is `StartupAsWritten`, recorded under "## Findings".
- PopupModel.MountStaleLastSelected: is stated for the own-key lookup. As written, an unlisted
  inherited name is restored (`StartupAsWrittenRestoresUnlisted`).
- PopupModel.Remove: keeps an own `"__proto__"` key of the index (possible only in an imported
  `HOSTNAME_SET`, which `JSON.parse` reads as an own key) as an ordinary key. Line 152 drops it,
  because the keyed assignment into the `{}` of line 147 goes to the `Object.prototype` setter,
  which ignores a non-object value. The persisted index loses it with it.
- PopupApp.CopyWithout: copies an own `"__proto__"` key like any other. The `forEach` at lines
  148-153 loses it, for the reason given for `PopupModel.Remove`.

## Findings

| source | as written | input that shows it | evidently intended | confidence | as-written member | corrected member |
|---|---|---|---|---|---|---|
| src/popup.tsx:168 | `!hostnameSet[newHostname]` also reads members inherited from `Object.prototype` | Save with input `toString` when it is not a key: the body is stored and `toString` is selected, but it is never added to the index or the selector | a saved hostname is always listed in the index | not executed; high | PopupModel.SaveAsWrittenLeavesUnlisted | PopupModel.Save |
| src/popup.tsx:75 | `initHostnameSet[lastSelected]` also reads inherited members | a stored last selection `toString` with an index lacking it: it is restored as the selection | only a hostname in the loaded index is restored | not executed; high | PopupModel.StartupAsWrittenRestoresUnlisted | PopupModel.Startup |
