# LocalizedTMPTextBinder, modelled in Dafny

`LocalizedTMPTextBinder` is a Unity component that wires a Unity Localization
`LocalizeStringEvent` to a TextMeshPro `TMP_Text` on the same game object.
When it is loaded (`Awake`) or reset in the inspector (`Reset`) it looks up
both components and, in the editor, registers its own `UpdateTMPText` method
as a persistent listener of the event's `OnUpdateString` unless it is already
registered. When it is destroyed in the editor it deletes every such listener,
scanning the list from the last index down. `UpdateTMPText` copies the
resolved string into the text component.

The project models:

- `persistent_calls.dfy`, module `PersistentCalls`: a persistent listener as a
  value `PersistentCall(target, methodName)`; the binder's own call (target is
  the binder itself, method name `"UpdateTMPText"`); reference definitions of
  the list after attaching (`WithOwnCall`) and after detaching
  (`WithoutOwnCalls`); and the lemmas about them: idempotence, the count of
  own calls, order preservation, and that nothing but own calls is removed.
- `unity_host.dfy`, modules `UnityHost` and `UnityEventTools`: the host
  components as classes (`UnityEvent` with a mutable `persistentCalls`
  sequence, `LocalizeStringEvent` owning one, `TMPText` with a mutable
  `text`) and the two editor helpers the binder calls, with the behaviour the
  binder assumes of them: adding appends at the end; removing index `i`
  deletes that entry and shifts the later ones down.
- `text_binder.dfy`, module `TextBinder`: the component as a class. The
  sibling components found by `GetComponent` are explicit optional
  references fixed at construction; the `UNITY_EDITOR_MODE` compilation
  switch is the flag `editorMode`. The linear search and the reverse
  deletion loop are `while` loops proved against the reference definitions.
- `binder_scenarios.dfy`, module `BinderScenarios`: clients that use only the
  contracts — `Awake` then `Reset`; attach, forward `"Hola"`, destroy, with
  another object's listener surviving; and setup with a missing component.

## Model

| member | source | states |
|---|---|---|
| PersistentCalls.IsOwnCall | LocalizedTMPTextBinder.cs:78-79 | a call is own exactly when its target is the binder and its method name is `UpdateTMPText` (the same test as cs:104-105) |
| PersistentCalls.IsOwnCallNeedsBoth | LocalizedTMPTextBinder.cs:104-105 | both conditions are required: another object's `UpdateTMPText` and another method on the binder are not own, the binder's `UpdateTMPText` is |
| PersistentCalls.HasOwnCall | LocalizedTMPTextBinder.cs:76-85 | the list holds an own call exactly when some index below its length holds one; the reference the search loop is proved against |
| PersistentCalls.OwnCall | LocalizedTMPTextBinder.cs:93 | the call the binder registers is one of its own: target is the binder, method name is `UpdateTMPText` |
| PersistentCalls.WithOwnCall | LocalizedTMPTextBinder.cs:60-63 | after the check-then-append the list has an own call, keeps the old list as a prefix and grows by at most one entry |
| PersistentCalls.WithoutOwnCalls | LocalizedTMPTextBinder.cs:102-109 | after deletion no own call remains, the list does not grow, every kept entry was in the list and is not own, and every non-own entry is kept |
| PersistentCalls.OwnCountPositive | LocalizedTMPTextBinder.cs:76-85 | the search predicate (some index with target this binder and method name `UpdateTMPText`) holds exactly when the number of own calls is positive |
| PersistentCalls.WithOwnCallIdempotent | LocalizedTMPTextBinder.cs:60-63 | attaching twice gives the same list as attaching once |
| PersistentCalls.AttachedTimesIsAttachedOnce | LocalizedTMPTextBinder.cs:31-35 | any positive number of `Awake`/`Reset` setups gives the list one setup gives |
| PersistentCalls.WithOwnCallCount | LocalizedTMPTextBinder.cs:59-63 | attaching brings the number of own calls from 0 to 1 and leaves a positive number unchanged |
| PersistentCalls.AttachKeepsAtMostOne | LocalizedTMPTextBinder.cs:51-63 | from a list with at most one own call, one or more setups leave exactly one |
| PersistentCalls.WithoutOwnCallsAppend | LocalizedTMPTextBinder.cs:102-108 | deletion distributes over concatenation, so the kept entries stay in their original relative order |
| PersistentCalls.ReverseDeletionStep | LocalizedTMPTextBinder.cs:102-108 | with the suffix after index `i` already cleaned, deleting index `i` when it is own (and keeping it otherwise) leaves the suffix from `i` cleaned and the prefix before `i` untouched |
| PersistentCalls.WithoutOwnCallsNoOp | LocalizedTMPTextBinder.cs:102-109 | deletion changes nothing when the binder has no call in the list |
| PersistentCalls.WithoutOwnCallsCounts | LocalizedTMPTextBinder.cs:102-109 | deletion keeps the multiplicity of every non-own call, leaves zero own calls and shortens the list by exactly the number of own calls |
| PersistentCalls.DetachAfterAttach | LocalizedTMPTextBinder.cs:37-63 | destroying after setup leaves what destroying alone leaves; on a list without own calls it restores the list |
| PersistentCalls.AttachAfterDetach | LocalizedTMPTextBinder.cs:60-63 | setting up after a teardown gives the other calls followed by exactly one own call |
| UnityEventTools.AddPersistentListener | LocalizedTMPTextBinder.cs:93 | assumed behaviour of the editor helper: the listener is appended at the end |
| UnityEventTools.RemovePersistentListener | LocalizedTMPTextBinder.cs:107 | assumed behaviour of the editor helper: index `i` is deleted and later entries shift down |
| TextBinder.LocalizedTMPTextBinder.constructor | LocalizedTMPTextBinder.cs:20-29 | the binder holds the given optional event and text components and editor flag |
| TextBinder.LocalizedTMPTextBinder.Awake | LocalizedTMPTextBinder.cs:31-32 | same effect as `SetupBindings` |
| TextBinder.LocalizedTMPTextBinder.Reset | LocalizedTMPTextBinder.cs:34-35 | same effect as `SetupBindings` |
| TextBinder.LocalizedTMPTextBinder.OnDestroy | LocalizedTMPTextBinder.cs:37-46 | in editor mode with an event present the list becomes the list without own calls; otherwise nothing changes, and without an event nothing may change at all |
| TextBinder.LocalizedTMPTextBinder.SetupBindings | LocalizedTMPTextBinder.cs:51-68 | with both components present in editor mode the list becomes `WithOwnCall` of the old list; with either component missing (or outside the editor) the list is unchanged; the text is never touched |
| TextBinder.LocalizedTMPTextBinder.HasPersistentListener | LocalizedTMPTextBinder.cs:74-86 | the result is true exactly when some index holds a call whose target is this binder and whose method name is `UpdateTMPText` |
| TextBinder.LocalizedTMPTextBinder.AddPersistentListener | LocalizedTMPTextBinder.cs:91-95 | the new list is the old list followed by this binder's own call |
| TextBinder.LocalizedTMPTextBinder.RemovePersistentListener | LocalizedTMPTextBinder.cs:100-112 | the new list is the old list with every own call deleted and every other entry kept in order |
| TextBinder.LocalizedTMPTextBinder.UpdateTMPText | LocalizedTMPTextBinder.cs:119-126 | the text becomes exactly `value` when the text component is present; nothing may change when it is absent |
| BinderScenarios.AwakeThenReset | LocalizedTMPTextBinder.cs:31-35 | `Awake` then `Reset` yields the single-setup list and adds at most one own call |

## Left out

- Unity attributes and component discovery (`[RequireComponent]`, `[ExecuteAlways]`, `GetComponent<T>`): replaced by optional references given to the constructor, which stay fixed for the binder's life.
- `EditorUtility.SetDirty`: it only marks the object for serialisation and changes no modelled state.
- The conditional compilation of editor-only code: modelled as the per-binder flag `editorMode` rather than a build setting.
- Event dispatch, localized string resolution and text rendering inside Unity, Unity Localization and TextMeshPro: foreign code; only the append and remove-at-index behaviour of the two editor helpers is assumed.
- `GetPersistentEventCount`, `GetPersistentTarget`, `GetPersistentMethodName`: the loops read the listener sequence directly (its length and the entry's fields) instead of calling these accessors.
- Text values are Dafny strings (sequences of characters): a C# `null` string passed to `UpdateTMPText` and unpaired UTF-16 surrogates cannot be represented; the binder only passes strings through unchanged, so no modelled property depends on them.
- The commented-out `ClearText`: dead code.
- Unity's overloaded object equality (a destroyed object comparing equal to null): targets are compared by reference identity.
