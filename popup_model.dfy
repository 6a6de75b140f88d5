/**
 * The state machine of the UserCSS popup (`App` in src/popup.tsx), on values.
 *
 * The persistent store has three kinds of entry: one stylesheet body per
 * hostname, the hostname index (HOSTNAME_SET) and the last-selected hostname
 * (LAST_SELECTED_HOST_NAME). The component keeps an in-memory copy of the
 * index, the selected hostname ("" = nothing selected), the text of the
 * "save as hostname" field, the editor's text and the two flags of the import
 * button. Every handler is one transition; each effect it triggers runs to
 * completion inside it, and storage reads and writes are synchronous.
 */
module PopupModel {

  datatype Option<T> = None | Some(value: T)

  /** The entries an import writes: whatever the parsed file holds. */
  datatype Snapshot = Snapshot(
    bodies: map<string, string>,
    hostnameSet: Option<map<string, bool>>,
    lastSelected: Option<string>)

  datatype State = State(
    store: map<string, string>,              // stylesheet body per hostname
    storedIndex: Option<map<string, bool>>,  // the HOSTNAME_SET entry
    storedLast: Option<string>,              // the LAST_SELECTED_HOST_NAME entry
    index: map<string, bool>,                // `hostnameSet`
    selection: string,                       // `hostname`
    input: string,                           // `hostnameInputValue`
    buffer: string,                          // the editor's text
    editorPresent: bool,                     // `editor !== null`
    importDisabled: bool,                    // `importButtonDisabled`
    importDone: bool)                        // `importButtonDone`

  /** h is one of the index's own keys and its flag is true: the evidently intended
      reading of `hostnameSet[h]` at src/popup.tsx:75 and :168. (As JavaScript evaluates
      it, the lookup also finds inherited members; see `Truthy` below.) */
  predicate Listed(index: map<string, bool>, h: string) {
    h in index && index[h]
  }

  /** What `getStorageItem(h)` yields for a hostname; an absent body reads as "". */
  function Body(store: map<string, string>, h: string): string {
    if h in store then store[h] else ""
  }

  /** What the editor shows for a selection: nothing for "", else the stored body. */
  function Shown(store: map<string, string>, h: string): string {
    if h == "" then "" else Body(store, h)
  }

  /** `getHostnameSet()`: the stored index, or the empty index when there is none. */
  function LoadIndex(stored: Option<map<string, bool>>): map<string, bool> {
    match stored
    case Some(m) => m
    case None => map[]
  }

  /** The selection is "" or one of the options of the hostname selector. */
  predicate SelectionListed(s: State) {
    s.selection == "" || s.selection in s.index
  }

  /** The selection effect has run to completion for the current selection. */
  predicate Settled(s: State) {
    && s.input == s.selection
    && (s.selection != "" ==> s.storedLast == Some(s.selection))
    && (s.editorPresent ==> s.buffer == Shown(s.store, s.selection))
  }

  /** Storage, index, editor and import button are the same in both states. */
  predicate SameData(s: State, r: State) {
    && r.store == s.store
    && r.storedIndex == s.storedIndex
    && r.index == s.index
    && r.editorPresent == s.editorPresent
    && r.importDisabled == s.importDisabled
    && r.importDone == s.importDone
  }

  /** The component state the `useState` calls start from, over a given storage. */
  function Initial(store: map<string, string>, storedIndex: Option<map<string, bool>>,
                   storedLast: Option<string>): State
  {
    State(store, storedIndex, storedLast, map[], "", "", "", false, true, false)
  }

  // ---------------------------------------------------------------------------
  // Effects

  /** The effect on `[editor, hostname]`: record a non-empty selection as the last
      selected one, copy it into the input field, and show its body in the editor. */
  function SelectionEffect(s: State): (r: State)
    ensures Settled(r) && SameData(s, r) && r.selection == s.selection
    ensures s.selection == "" ==> r.storedLast == s.storedLast
    ensures !s.editorPresent ==> r.buffer == s.buffer
  {
    var last := if s.selection != "" then Some(s.selection) else s.storedLast;
    var text := if s.editorPresent then Shown(s.store, s.selection) else s.buffer;
    s.(storedLast := last, input := s.selection, buffer := text)
  }

  /** `setHostname(h)`: React re-runs the selection effect only when the value changes. */
  function SetSelection(s: State, h: string): State {
    if h == s.selection then s else SelectionEffect(s.(selection := h))
  }

  /** `setHostnameSet(m)` with a new object, followed by the effect that persists it. */
  function SetIndex(s: State, m: map<string, bool>): State {
    s.(index := m, storedIndex := Some(m))
  }

  // ---------------------------------------------------------------------------
  // Transitions

  /** Startup: load the index, then restore the last selection if the index lists it. */
  function Startup(s: State): (r: State)
    ensures r.index == LoadIndex(s.storedIndex) && r.storedIndex == Some(r.index)
    ensures s.storedLast.Some? && Listed(r.index, s.storedLast.value) ==>
              r.selection == s.storedLast.value
    ensures !(s.storedLast.Some? && Listed(r.index, s.storedLast.value)) ==> r.selection == ""
    ensures r.selection != s.selection ==> Settled(r)
    ensures r.selection == s.selection ==> r.input == s.input && r.buffer == s.buffer
    ensures r.selection == "" ==> r.storedLast == s.storedLast
    ensures r.store == s.store && r.editorPresent == s.editorPresent
    ensures r.importDisabled == s.importDisabled && r.importDone == s.importDone
    ensures SelectionListed(r)
  {
    var loaded := LoadIndex(s.storedIndex);
    var last := s.storedLast;
    SetSelection(SetIndex(s, loaded),
                 if last.Some? && Listed(loaded, last.value) then last.value else "")
  }

  /** Editor creation, once, at mount: the editor exists and the selection
      effect runs again because `editor` is one of its dependencies. */
  function CreateEditor(s: State): (r: State)
    requires !s.editorPresent
    ensures r.editorPresent && Settled(r) && r.selection == s.selection
    ensures s.selection == "" ==> r.storedLast == s.storedLast
    ensures r.store == s.store && r.storedIndex == s.storedIndex && r.index == s.index
    ensures r.importDisabled == s.importDisabled && r.importDone == s.importDone
    ensures SelectionListed(s) ==> SelectionListed(r)
  {
    SelectionEffect(s.(editorPresent := true))
  }

  /** The whole mount over a storage: the startup load and the editor creation. */
  function Mount(store: map<string, string>, storedIndex: Option<map<string, bool>>,
                 storedLast: Option<string>): (r: State)
    ensures r.editorPresent && Settled(r) && SelectionListed(r)
    ensures r.selection == (if storedLast.Some? && Listed(LoadIndex(storedIndex), storedLast.value)
                            then storedLast.value else "")
    ensures r.selection == "" ==> r.storedLast == storedLast
    ensures r.index == LoadIndex(storedIndex) && r.storedIndex == Some(r.index)
    ensures r.store == store && r.importDisabled && !r.importDone
  {
    CreateEditor(Startup(Initial(store, storedIndex, storedLast)))
  }

  /** Picking hostname h in the selector, whose options are "" and the index keys. */
  function Select(s: State, h: string): (r: State)
    requires h == "" || h in s.index
    ensures r.selection == h && SameData(s, r) && SelectionListed(r)
    ensures h == s.selection ==> r == s
    ensures h != s.selection ==> Settled(r)
    ensures h == "" ==> r.storedLast == s.storedLast
    ensures !s.editorPresent ==> r.buffer == s.buffer
  {
    SetSelection(s, h)
  }

  /** Typing into the "save as hostname" field. */
  function EditInput(s: State, v: string): (r: State)
    ensures r.input == v && r.(input := s.input) == s
  {
    s.(input := v)
  }

  /** The user editing the text of the (present) editor. */
  function EditBuffer(s: State, t: string): (r: State)
    requires s.editorPresent
    ensures r.buffer == t && r.(buffer := s.buffer) == s
  {
    s.(buffer := t)
  }

  /** The remove button: drop the selected hostname from the index (never its
      stored body) and fall back to no selection. */
  function Remove(s: State): (r: State)
    ensures r.index.Keys == s.index.Keys - {s.selection}
    ensures forall k :: k in r.index ==> r.index[k] == s.index[k]
    ensures r.storedIndex == Some(r.index)
    ensures r.selection == "" && SelectionListed(r)
    ensures r.store == s.store && r.storedLast == s.storedLast
    ensures s.selection != "" ==> r.input == "" && (r.editorPresent ==> r.buffer == "")
    ensures s.selection == "" ==> r.input == s.input && r.buffer == s.buffer
    ensures r.editorPresent == s.editorPresent
    ensures r.importDisabled == s.importDisabled && r.importDone == s.importDone
  {
    SetSelection(SetIndex(s, s.index - {s.selection}), "")
  }

  /** The save button (enabled only for a non-empty input h): list h, overwrite
      the body stored under h with the editor's text, and select h. Without an
      editor nothing happens. */
  function Save(s: State): (r: State)
    requires s.input != ""
    ensures !s.editorPresent ==> r == s
    ensures s.editorPresent ==>
              && r.index == s.index[s.input := true]
              && (Listed(s.index, s.input) ==> r.storedIndex == s.storedIndex)
              && (!Listed(s.index, s.input) ==> r.storedIndex == Some(r.index))
              && r.store == s.store[s.input := s.buffer]
              && r.selection == s.input && r.input == s.input && r.buffer == s.buffer
              && (s.input != s.selection ==> r.storedLast == Some(s.input))
              && (s.input == s.selection ==> r.storedLast == s.storedLast)
    ensures r.editorPresent == s.editorPresent
    ensures r.importDisabled == s.importDisabled && r.importDone == s.importDone
    ensures SelectionListed(s) ==> SelectionListed(r)
  {
    if !s.editorPresent then s
    else
      var h := s.input;
      var listed := if Listed(s.index, h) then s else SetIndex(s, s.index[h := true]);
      SetSelection(listed.(store := listed.store[h := listed.buffer]), h)
  }

  /** The file input changed: the import button is enabled exactly when a file is chosen. */
  function PickImportFile(s: State, fileChosen: bool): (r: State)
    ensures r.importDisabled == !fileChosen
    ensures r.(importDisabled := s.importDisabled) == s
  {
    s.(importDisabled := !fileChosen)
  }

  /** Storage after the entries of an import are written over it, key by key. */
  function WriteSnapshot(s: State, snap: Snapshot): State {
    s.(store := s.store + snap.bodies,
       storedIndex := if snap.hostnameSet.Some? then snap.hostnameSet else s.storedIndex,
       storedLast := if snap.lastSelected.Some? then snap.lastSelected else s.storedLast)
  }

  /** The (enabled) import button. `result` is the outcome of reading and parsing
      the chosen file: None when it fails, else the entries it writes. */
  function Import(s: State, fileChosen: bool, result: Option<Snapshot>): (r: State)
    requires !s.importDisabled
    ensures !fileChosen || result.None? ==> r == s
    ensures fileChosen && result.Some? ==>
              && r.importDone && r.importDisabled
              && r.store.Keys == s.store.Keys + result.value.bodies.Keys
              && (forall k :: k in result.value.bodies ==> r.store[k] == result.value.bodies[k])
              && (forall k :: k in s.store && k !in result.value.bodies ==> r.store[k] == s.store[k])
              && (result.value.hostnameSet.Some? ==> r.storedIndex == result.value.hostnameSet)
              && (result.value.hostnameSet.None? ==> r.storedIndex == s.storedIndex)
              && (result.value.lastSelected.Some? ==> r.storedLast == result.value.lastSelected)
              && (result.value.lastSelected.None? ==> r.storedLast == s.storedLast)
    ensures r.index == s.index && r.selection == s.selection
    ensures r.input == s.input && r.buffer == s.buffer && r.editorPresent == s.editorPresent
  {
    if fileChosen && result.Some? then
      WriteSnapshot(s, result.value).(importDone := true, importDisabled := true)
    else s
  }

  // ---------------------------------------------------------------------------
  // Properties that relate several transitions

  /** Saving h with text t and then picking h again, from whatever was picked in
      between, shows t. */
  lemma SaveThenReselect(s: State, g: string)
    requires s.editorPresent && s.input != ""
    requires g == "" || g in Save(s).index
    ensures Save(s).buffer == s.buffer
    ensures s.input in Select(Save(s), g).index
    ensures Select(Select(Save(s), g), s.input).buffer == s.buffer
  {
  }

  /** Two saves of the same input and text leave the state of one. */
  lemma SaveIdempotent(s: State)
    requires s.input != ""
    ensures Save(s).input == s.input
    ensures Save(Save(s)) == Save(s)
  {
  }

  /** The remove button has no guard: with nothing selected and no "" key it
      only writes the unchanged index back to storage. */
  lemma RemoveWithNothingSelected(s: State)
    requires s.selection == "" && "" !in s.index
    ensures Remove(s) == s.(storedIndex := Some(s.index))
  {
    assert s.index - {""} == s.index;
  }

  /** Startup's storage reads and the editor creation can finish in either order. */
  lemma MountOrderIrrelevant(store: map<string, string>, storedIndex: Option<map<string, bool>>,
                             storedLast: Option<string>)
    ensures Startup(CreateEditor(Initial(store, storedIndex, storedLast)))
         == CreateEditor(Startup(Initial(store, storedIndex, storedLast)))
  {
  }

  /** With no data in storage the popup opens with an empty index and nothing selected. */
  lemma MountWithoutData(store: map<string, string>)
    ensures Mount(store, None, None).index == map[]
    ensures Mount(store, None, None).selection == ""
    ensures Mount(store, None, None).buffer == ""
  {
  }

  /** A last-selected hostname that the stored index does not list is not restored. */
  lemma MountStaleLastSelected(store: map<string, string>, m: map<string, bool>, h: string)
    requires !Listed(m, h)
    ensures Mount(store, Some(m), Some(h)).selection == ""
  {
  }

  /** After an import that carries an index, reopening the popup loads that index
      and shows the imported bodies; before reopening nothing in memory changed. */
  lemma ImportThenReopen(s: State, snap: Snapshot, m: map<string, bool>, h: string)
    requires !s.importDisabled && snap.hostnameSet == Some(m) && snap.lastSelected == Some(h)
    requires h != "" && h in snap.bodies && Listed(m, h)
    ensures var after := Import(s, true, Some(snap));
            var r := Mount(after.store, after.storedIndex, after.storedLast);
            && after.index == s.index && after.selection == s.selection
            && r.index == m && r.selection == h && r.buffer == snap.bodies[h]
  {
  }

  // ---------------------------------------------------------------------------
  // Runs of user actions

  /** One user action on a control of the popup. */
  datatype Action =
    | PickHostname(h: string)                            // the hostname selector
    | TypeHostname(v: string)                            // the "save as hostname" field
    | TypeStyle(t: string)                               // the editor
    | RemoveHostname                                     // the remove button
    | SaveStyle                                          // the save button
    | PickFile(chosen: bool)                             // the file input
    | ImportFile(chosen: bool, result: Option<Snapshot>) // the import button

  /** An action on a control that cannot take it (a missing option, a disabled
      button, no editor yet) does nothing. */
  function Step(s: State, a: Action): State {
    match a
    case PickHostname(h) => if h == "" || h in s.index then Select(s, h) else s
    case TypeHostname(v) => EditInput(s, v)
    case TypeStyle(t) => if s.editorPresent then EditBuffer(s, t) else s
    case RemoveHostname => Remove(s)
    case SaveStyle => if s.input != "" then Save(s) else s
    case PickFile(chosen) => PickImportFile(s, chosen)
    case ImportFile(chosen, result) => if !s.importDisabled then Import(s, chosen, result) else s
  }

  function Run(s: State, acts: seq<Action>): State
    decreases |acts|
  {
    if acts == [] then s else Run(Step(s, acts[0]), acts[1..])
  }

  /** Every listed hostname has a stored body, and the selection is listed. */
  predicate Consistent(s: State) {
    SelectionListed(s) && s.index.Keys <= s.store.Keys
  }

  /** The stored index is the in-memory one. */
  predicate Persisted(s: State) {
    s.storedIndex == Some(s.index)
  }

  /** An import whose file carries an index replaces the stored one behind the
      in-memory index's back. */
  predicate ReplacesIndex(a: Action) {
    a.ImportFile? && a.chosen && a.result.Some? && a.result.value.hostnameSet.Some?
  }

  lemma StepKeepsConsistent(s: State, a: Action)
    requires Consistent(s)
    ensures Consistent(Step(s, a))
  {
  }

  lemma StepKeepsPersisted(s: State, a: Action)
    requires Persisted(s) && !ReplacesIndex(a)
    ensures Persisted(Step(s, a))
  {
  }

  /** No run of actions breaks consistency. */
  lemma {:induction false} RunKeepsConsistent(s: State, acts: seq<Action>)
    requires Consistent(s)
    ensures Consistent(Run(s, acts))
    decreases |acts|
  {
    if acts != [] {
      StepKeepsConsistent(s, acts[0]);
      RunKeepsConsistent(Step(s, acts[0]), acts[1..]);
    }
  }

  /** Without an import that replaces the index, the stored index follows the
      in-memory one through every run. */
  lemma {:induction false} RunKeepsPersisted(s: State, acts: seq<Action>)
    requires Persisted(s)
    requires forall i :: 0 <= i < |acts| ==> !ReplacesIndex(acts[i])
    ensures Persisted(Run(s, acts))
    decreases |acts|
  {
    if acts != [] {
      StepKeepsPersisted(s, acts[0]);
      RunKeepsPersisted(Step(s, acts[0]), acts[1..]);
    }
  }

  /** From a mount over consistent storage, every run stays consistent. */
  lemma MountThenRun(store: map<string, string>, storedIndex: Option<map<string, bool>>,
                     storedLast: Option<string>, acts: seq<Action>)
    requires LoadIndex(storedIndex).Keys <= store.Keys
    ensures Consistent(Run(Mount(store, storedIndex, storedLast), acts))
  {
    RunKeepsConsistent(Mount(store, storedIndex, storedLast), acts);
  }

  // ---------------------------------------------------------------------------
  // The index lookup as JavaScript evaluates it

  /** The properties every plain object inherits from `Object.prototype`; each
      of them reads as a truthy value (a function, or the prototype object). */
  const InheritedNames: set<string> :=
    {"constructor", "hasOwnProperty", "isPrototypeOf", "propertyIsEnumerable",
     "toLocaleString", "toString", "valueOf", "__proto__", "__defineGetter__",
     "__defineSetter__", "__lookupGetter__", "__lookupSetter__"}

  /** `hostnameSet[h]` is truthy: an own key gives its flag, otherwise the
      lookup falls through to the inherited members. */
  predicate Truthy(index: map<string, bool>, h: string) {
    if h in index then index[h] else h in InheritedNames
  }

  /** Lines 71-78 as written: the last selection is restored when `Truthy`. */
  function StartupAsWritten(s: State): (r: State)
    ensures r.index == LoadIndex(s.storedIndex) && r.storedIndex == Some(r.index)
    ensures s.storedLast.Some? && Truthy(r.index, s.storedLast.value) ==>
              r.selection == s.storedLast.value
    ensures !(s.storedLast.Some? && Truthy(r.index, s.storedLast.value)) ==> r.selection == ""
  {
    var loaded := LoadIndex(s.storedIndex);
    var last := s.storedLast;
    SetSelection(SetIndex(s, loaded),
                 if last.Some? && Truthy(loaded, last.value) then last.value else "")
  }

  /** Lines 160-181 as written: the index is extended only when `!Truthy`. */
  function SaveAsWritten(s: State): (r: State)
    requires s.input != ""
    ensures !s.editorPresent ==> r == s
    ensures s.editorPresent ==>
              && (Truthy(s.index, s.input) ==> r.index == s.index)
              && (!Truthy(s.index, s.input) ==> r.index == s.index[s.input := true])
              && r.store == s.store[s.input := s.buffer] && r.selection == s.input
  {
    if !s.editorPresent then s
    else
      var h := s.input;
      var listed := if Truthy(s.index, h) then s else SetIndex(s, s.index[h := true]);
      SetSelection(listed.(store := listed.store[h := listed.buffer]), h)
  }

  /** As written, saving under an inherited name that is not a key stores the
      body and selects the name, but never lists it: the selector does not offer
      the selection, and the saved body is outside the index. */
  lemma SaveAsWrittenLeavesUnlisted(s: State)
    requires s.editorPresent && s.input in InheritedNames && s.input !in s.index
    ensures SaveAsWritten(s).selection == s.input
    ensures s.input !in SaveAsWritten(s).index
    ensures SaveAsWritten(s).store[s.input] == s.buffer
    ensures !SelectionListed(SaveAsWritten(s))
    ensures SelectionListed(Save(s)) && Listed(Save(s).index, s.input)
  {
  }

  /** As written, a stored last selection named after an inherited member is
      restored although the loaded index does not have it. */
  lemma StartupAsWrittenRestoresUnlisted(s: State)
    requires s.storedLast.Some? && s.storedLast.value in InheritedNames
    requires s.storedLast.value !in LoadIndex(s.storedIndex)
    ensures StartupAsWritten(s).selection == s.storedLast.value
    ensures !SelectionListed(StartupAsWritten(s))
    ensures Startup(s).selection == ""
  {
  }

  /** Off the inherited names the lookups agree, so the as-written and the
      corrected transitions are the same. */
  lemma AsWrittenAgreesOffInherited(s: State)
    ensures s.input != "" && (s.input in s.index || s.input !in InheritedNames) ==>
              SaveAsWritten(s) == Save(s)
    ensures s.storedLast.Some? && (s.storedLast.value in LoadIndex(s.storedIndex)
                                   || s.storedLast.value !in InheritedNames) ==>
              StartupAsWritten(s) == Startup(s)
  {
  }
}
