/** Clients of the binder that use only its contracts: the lifecycle
    sequences the component goes through inside the editor. */
module BinderScenarios {
  import opened PersistentCalls
  import opened UnityHost
  import opened TextBinder

  /** `Awake` followed by `Reset` (or any two setups) leaves the list a single
      setup leaves, so at most one entry is added. */
  method AwakeThenReset(binder: LocalizedTMPTextBinder)
    modifies binder.EventFrame()
    ensures binder.localizeStringEvent != null ==>
      binder.localizeStringEvent.onUpdateString.persistentCalls
        == if binder.tmpText != null && binder.editorMode
           then WithOwnCall(old(binder.localizeStringEvent.onUpdateString.persistentCalls), binder)
           else old(binder.localizeStringEvent.onUpdateString.persistentCalls)
    ensures binder.localizeStringEvent != null ==>
      OwnCount(binder.localizeStringEvent.onUpdateString.persistentCalls, binder)
        <= OwnCount(old(binder.localizeStringEvent.onUpdateString.persistentCalls), binder) + 1
  {
    ghost var before := if binder.localizeStringEvent != null
                        then binder.localizeStringEvent.onUpdateString.persistentCalls else [];
    binder.Awake();
    binder.Reset();
    if binder.localizeStringEvent != null {
      WithOwnCallIdempotent(before, binder);
      WithOwnCallCount(before, binder);
    }
  }

  /** Both components present: attaching subscribes once, a resolved string
      reaches the text, and destroying the binder unsubscribes it while a
      listener of another object survives. */
  method AttachForwardDetach(other: object)
  {
    var stringEvent := new LocalizeStringEvent([PersistentCall(other, UpdateTMPTextName)]);
    var text := new TMPText("");
    var binder := new LocalizedTMPTextBinder(stringEvent, text, true);
    assert !IsOwnCall(stringEvent.onUpdateString.persistentCalls[0], binder);
    binder.Awake();
    assert stringEvent.onUpdateString.persistentCalls
        == [PersistentCall(other, UpdateTMPTextName), OwnCall(binder)];
    assert OwnCount(stringEvent.onUpdateString.persistentCalls, binder) == 1;
    binder.Reset();
    assert |stringEvent.onUpdateString.persistentCalls| == 2;
    binder.UpdateTMPText("Hola");
    assert text.text == "Hola";
    binder.OnDestroy();
    assert stringEvent.onUpdateString.persistentCalls == [PersistentCall(other, UpdateTMPTextName)];
  }

  /** A missing collaborator makes setup a silent no-op. */
  method MissingComponents(calls: seq<PersistentCall>)
  {
    var stringEvent := new LocalizeStringEvent(calls);
    var noText := new LocalizedTMPTextBinder(stringEvent, null, true);
    noText.Awake();
    assert stringEvent.onUpdateString.persistentCalls == calls;

    var text := new TMPText("label");
    var noEvent := new LocalizedTMPTextBinder(null, text, true);
    noEvent.Awake();
    noEvent.OnDestroy();
    assert text.text == "label";
    assert stringEvent.onUpdateString.persistentCalls == calls;
  }
}
