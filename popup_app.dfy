/**
 * The `App` component of src/popup.tsx as an object: its state and the storage
 * entries are fields, every handler and effect is a method that updates them
 * step by step, and each method's new state is the transition of PopupModel
 * applied to the old one.
 */
module PopupApp {
  import opened PopupModel

  /** `Object.keys(m).forEach(...)` of the remove handler: copy every entry of m
      except the one under h into a new map. */
  method CopyWithout(m: map<string, bool>, h: string) returns (r: map<string, bool>)
    ensures r == m - {h}
  {
    r := map[];
    var todo := m.Keys;
    while todo != {}
      invariant todo <= m.Keys
      invariant r.Keys == (m.Keys - todo) - {h}
      invariant forall k :: k in r ==> r[k] == m[k]
      decreases todo
    {
      var k :| k in todo;
      if k != h {
        r := r[k := m[k]];
      }
      todo := todo - {k};
    }
  }

  class App {
    // storage entries
    var store: map<string, string>
    var storedIndex: Option<map<string, bool>>
    var storedLast: Option<string>
    // component state
    var index: map<string, bool>
    var selection: string
    var input: string
    var buffer: string
    var editorPresent: bool
    var importDisabled: bool
    var importDone: bool

    function Abstract(): State
      reads this
    {
      State(store, storedIndex, storedLast, index, selection, input, buffer,
            editorPresent, importDisabled, importDone)
    }

    ghost predicate Valid()
      reads this
    {
      SelectionListed(Abstract())
    }

    /** The `useState` initial values, over the storage as it is when the popup opens. */
    constructor (store0: map<string, string>, storedIndex0: Option<map<string, bool>>,
                 storedLast0: Option<string>)
      ensures Valid()
      ensures Abstract() == Initial(store0, storedIndex0, storedLast0)
    {
      store, storedIndex, storedLast := store0, storedIndex0, storedLast0;
      index, selection, input, buffer := map[], "", "", "";
      editorPresent, importDisabled, importDone := false, true, false;
    }

    /** The effect on `[editor, hostname]`. */
    method ApplyHostname()
      modifies this
      ensures Abstract() == SelectionEffect(old(Abstract()))
    {
      if selection != "" {
        storedLast := Some(selection);
      }
      input := selection;
      if selection == "" {
        if editorPresent {
          buffer := "";
        }
        return;
      }
      if editorPresent {
        buffer := Body(store, selection);
      }
    }

    /** `setHostname(h)`; the effect runs only when the value changes. */
    method SetHostname(h: string)
      modifies this
      ensures Abstract() == SetSelection(old(Abstract()), h)
    {
      if h != selection {
        selection := h;
        ApplyHostname();
      }
    }

    /** `setHostnameSet(m)` and the effect that writes it to HOSTNAME_SET. */
    method SetHostnameSet(m: map<string, bool>)
      modifies this
      ensures Abstract() == SetIndex(old(Abstract()), m)
    {
      index := m;
      storedIndex := Some(m);
    }

    /** The startup effect: load the index, then the last selected hostname. */
    method LoadInitialHostname()
      requires Valid()
      modifies this
      ensures Valid()
      ensures Abstract() == Startup(old(Abstract()))
    {
      var initHostnameSet := LoadIndex(storedIndex);
      SetHostnameSet(initHostnameSet);
      var lastSelected := storedLast;
      if lastSelected.Some? && Listed(initHostnameSet, lastSelected.value) {
        SetHostname(lastSelected.value);
      } else {
        SetHostname("");
      }
    }

    /** The editor-creation effect, reduced to the editor coming into existence. */
    method CreateEditor()
      requires Valid() && !editorPresent
      modifies this
      ensures Valid()
      ensures Abstract() == PopupModel.CreateEditor(old(Abstract()))
    {
      editorPresent := true;
      ApplyHostname();
    }

    method OnHostnameSelectChange(newHostname: string)
      requires Valid() && (newHostname == "" || newHostname in index)
      modifies this
      ensures Valid()
      ensures Abstract() == Select(old(Abstract()), newHostname)
    {
      SetHostname(newHostname);
    }

    method OnHostnameInputChange(value: string)
      requires Valid()
      modifies this
      ensures Valid()
      ensures Abstract() == EditInput(old(Abstract()), value)
    {
      input := value;
    }

    /** The user's edits inside the editor widget. */
    method OnEditorChange(text: string)
      requires Valid() && editorPresent
      modifies this
      ensures Valid()
      ensures Abstract() == EditBuffer(old(Abstract()), text)
    {
      buffer := text;
    }

    method OnRemoveHostnameButtonClick()
      requires Valid()
      modifies this
      ensures Valid()
      ensures Abstract() == Remove(old(Abstract()))
    {
      var newHostnameSet := CopyWithout(index, selection);
      SetHostnameSet(newHostnameSet);
      SetHostname("");
    }

    method OnSaveButtonClick()
      requires Valid() && input != ""
      modifies this
      ensures Valid()
      ensures Abstract() == Save(old(Abstract()))
    {
      if !editorPresent {
        return;
      }
      var newHostname := input;
      if !Listed(index, newHostname) {
        var newHostnameSet := index;
        newHostnameSet := newHostnameSet[newHostname := true];
        SetHostnameSet(newHostnameSet);
      }
      var newValue := buffer;
      store := store[newHostname := newValue];
      SetHostname(newHostname);
    }

    method OnImportInputChange(fileChosen: bool)
      requires Valid()
      modifies this
      ensures Valid()
      ensures Abstract() == PickImportFile(old(Abstract()), fileChosen)
    {
      importDisabled := !fileChosen;
    }

    /** `result` is what reading the chosen file and `importDataToStorage` come to. */
    method OnImportButtonClick(fileChosen: bool, result: Option<Snapshot>)
      requires Valid() && !importDisabled
      modifies this
      ensures Valid()
      ensures Abstract() == Import(old(Abstract()), fileChosen, result)
    {
      if !fileChosen {
        return;
      }
      match result
      case None =>
      case Some(snap) =>
        store := store + snap.bodies;
        if snap.hostnameSet.Some? {
          storedIndex := snap.hostnameSet;
        }
        if snap.lastSelected.Some? {
          storedLast := snap.lastSelected;
        }
        importDone := true;
        importDisabled := true;
    }
  }
}
