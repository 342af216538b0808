/** The Unity components the binder talks to, reduced to the state it reads
    and writes.  Their real implementations live in Unity, TextMeshPro and
    Unity Localization; only what the binder relies on is modelled. */
module UnityHost {
  import opened PersistentCalls

  /** A `UnityEvent<string>`: its serialised persistent-listener list. */
  class UnityEvent {
    var persistentCalls: seq<PersistentCall>

    constructor (calls: seq<PersistentCall>)
      ensures persistentCalls == calls
    {
      persistentCalls := calls;
    }
  }

  /** The `LocalizeStringEvent` component; `OnUpdateString` is the event that
      fires with each resolved localized string. */
  class LocalizeStringEvent {
    const onUpdateString: UnityEvent

    constructor (calls: seq<PersistentCall>)
      ensures fresh(onUpdateString) && onUpdateString.persistentCalls == calls
    {
      onUpdateString := new UnityEvent(calls);
    }
  }

  /** The `TMP_Text` component: a displayed string. */
  class TMPText {
    var text: string

    constructor (text: string)
      ensures this.text == text
    {
      this.text := text;
    }
  }
}

/** The two editor helpers of `UnityEditor.Events.UnityEventTools` that the
    binder calls.  Their implementation is not visible; these bodies fix the
    behaviour the binder assumes of them. */
module UnityEventTools {
  import opened PersistentCalls
  import opened UnityHost

  /** Registers `target.methodName` as a persistent listener, at the end. */
  method AddPersistentListener(unityEvent: UnityEvent, target: object, methodName: string)
    modifies unityEvent
    ensures unityEvent.persistentCalls == old(unityEvent.persistentCalls) + [PersistentCall(target, methodName)]
  {
    unityEvent.persistentCalls := unityEvent.persistentCalls + [PersistentCall(target, methodName)];
  }

  /** Deletes the persistent listener at `index`; later ones shift down. */
  method RemovePersistentListener(unityEvent: UnityEvent, index: nat)
    requires index < |unityEvent.persistentCalls|
    modifies unityEvent
    ensures unityEvent.persistentCalls
         == old(unityEvent.persistentCalls)[..index] + old(unityEvent.persistentCalls)[index + 1..]
  {
    unityEvent.persistentCalls := unityEvent.persistentCalls[..index] + unityEvent.persistentCalls[index + 1..];
  }
}
