/** The `LocalizedTMPTextBinder` component: it subscribes its own
    `UpdateTMPText` method to a `LocalizeStringEvent`'s `OnUpdateString` as a
    persistent listener, once, and forwards each resolved string into a
    `TMP_Text`. */
module TextBinder {
  import opened PersistentCalls
  import opened UnityHost
  import UnityEventTools

  class LocalizedTMPTextBinder {
    /** The sibling components that `GetComponent` would find; either may be
        absent. */
    const localizeStringEvent: LocalizeStringEvent?
    const tmpText: TMPText?
    /** Whether the editor-only code (`UNITY_EDITOR_MODE`) is compiled in. */
    const editorMode: bool

    constructor (localizeStringEvent: LocalizeStringEvent?, tmpText: TMPText?, editorMode: bool)
      ensures this.localizeStringEvent == localizeStringEvent
      ensures this.tmpText == tmpText
      ensures this.editorMode == editorMode
    {
      this.localizeStringEvent := localizeStringEvent;
      this.tmpText := tmpText;
      this.editorMode := editorMode;
    }

    /** The objects setup and teardown may change: the event's listener list. */
    function EventFrame(): set<object>
    {
      if localizeStringEvent != null then {localizeStringEvent.onUpdateString} else {}
    }

    /** Unity lifecycle entry when the component is loaded. */
    method Awake()
      modifies EventFrame()
      ensures localizeStringEvent != null ==>
        localizeStringEvent.onUpdateString.persistentCalls
          == if tmpText != null && editorMode
             then WithOwnCall(old(localizeStringEvent.onUpdateString.persistentCalls), this)
             else old(localizeStringEvent.onUpdateString.persistentCalls)
    {
      SetupBindings();
    }

    /** Unity lifecycle entry when the component is reset in the inspector. */
    method Reset()
      modifies EventFrame()
      ensures localizeStringEvent != null ==>
        localizeStringEvent.onUpdateString.persistentCalls
          == if tmpText != null && editorMode
             then WithOwnCall(old(localizeStringEvent.onUpdateString.persistentCalls), this)
             else old(localizeStringEvent.onUpdateString.persistentCalls)
    {
      SetupBindings();
    }

    /** Unity lifecycle exit: in editor mode, unsubscribe every own listener. */
    method OnDestroy()
      modifies EventFrame()
      ensures localizeStringEvent != null ==>
        localizeStringEvent.onUpdateString.persistentCalls
          == if editorMode
             then WithoutOwnCalls(old(localizeStringEvent.onUpdateString.persistentCalls), this)
             else old(localizeStringEvent.onUpdateString.persistentCalls)
    {
      if editorMode {
        var stringEvent := localizeStringEvent;
        if stringEvent != null {
          RemovePersistentListener(stringEvent);
        }
      }
    }

    /** Binds the event to `UpdateTMPText` unless a component is missing or
        the binding already exists. */
    method SetupBindings()
      modifies EventFrame()
      ensures localizeStringEvent != null ==>
        localizeStringEvent.onUpdateString.persistentCalls
          == if tmpText != null && editorMode
             then WithOwnCall(old(localizeStringEvent.onUpdateString.persistentCalls), this)
             else old(localizeStringEvent.onUpdateString.persistentCalls)
    {
      var stringEvent := localizeStringEvent;
      var text := tmpText;
      if stringEvent == null || text == null {
        return;
      }
      if editorMode {
        var has := HasPersistentListener(stringEvent);
        if !has {
          AddPersistentListener(stringEvent);
        }
      }
    }

    /** Whether some persistent listener of the event is this binder's
        `UpdateTMPText`. */
    method HasPersistentListener(stringEvent: LocalizeStringEvent) returns (found: bool)
      ensures found == HasOwnCall(stringEvent.onUpdateString.persistentCalls, this)
    {
      var i := 0;
      while i < |stringEvent.onUpdateString.persistentCalls|
        invariant 0 <= i <= |stringEvent.onUpdateString.persistentCalls|
        invariant forall k :: 0 <= k < i ==> !IsOwnCall(stringEvent.onUpdateString.persistentCalls[k], this)
      {
        if stringEvent.onUpdateString.persistentCalls[i].target == this
          && stringEvent.onUpdateString.persistentCalls[i].methodName == UpdateTMPTextName
        {
          return true;
        }
        i := i + 1;
      }
      return false;
    }

    /** Appends this binder's `UpdateTMPText` to the event's listeners. */
    method AddPersistentListener(stringEvent: LocalizeStringEvent)
      modifies stringEvent.onUpdateString
      ensures stringEvent.onUpdateString.persistentCalls
           == old(stringEvent.onUpdateString.persistentCalls) + [OwnCall(this)]
    {
      UnityEventTools.AddPersistentListener(stringEvent.onUpdateString, this, UpdateTMPTextName);
    }

    /** Deletes every listener that is this binder's `UpdateTMPText`, scanning
        the indices from the last down to 0 so that a deletion only shifts
        entries already visited. */
    method RemovePersistentListener(stringEvent: LocalizeStringEvent)
      modifies stringEvent.onUpdateString
      ensures stringEvent.onUpdateString.persistentCalls
           == WithoutOwnCalls(old(stringEvent.onUpdateString.persistentCalls), this)
    {
      var unityEvent := stringEvent.onUpdateString;
      ghost var original := unityEvent.persistentCalls;
      var i := |unityEvent.persistentCalls| - 1;
      while i >= 0
        invariant -1 <= i < |original|
        // entries below i + 1 untouched; at or after i + 1, only non-own ones remain
        invariant unityEvent.persistentCalls == original[..i + 1] + WithoutOwnCalls(original[i + 1..], this)
        decreases i
      {
        ReverseDeletionStep(original, this, i);
        if unityEvent.persistentCalls[i].target == this
          && unityEvent.persistentCalls[i].methodName == UpdateTMPTextName
        {
          UnityEventTools.RemovePersistentListener(unityEvent, i);
        }
        i := i - 1;
      }
      assert original[0..] == original;
    }

    /** The listener: shows `value` in the text component, if there is one. */
    method UpdateTMPText(value: string)
      modifies if tmpText != null then {tmpText} else {}
      ensures tmpText != null ==> tmpText.text == value
    {
      var text := tmpText;
      if text != null {
        text.text := value;
      }
    }
  }
}
