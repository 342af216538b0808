/** The persistent-listener list of a Unity event, as plain values.

    A persistent listener ("persistent call") is what the Unity editor
    serialises for an event subscription: the object the call goes to and the
    name of the method to invoke on it.  The binder recognises its own
    subscription by identity of the target and by the method name
    "UpdateTMPText"; both must agree.  This module gives the reference
    definitions that the imperative binder is proved against, and the
    properties of those definitions. */
module PersistentCalls {

  /** One serialised subscription: the receiving object and the method name.
      A target may be missing (null) when the referenced object is gone. */
  datatype PersistentCall = PersistentCall(target: object?, methodName: string)

  /** The name of the binder's forwarding method, `nameof(UpdateTMPText)`. */
  const UpdateTMPTextName: string := "UpdateTMPText"

  /** A call belongs to `binder` when it targets that very object AND names
      the forwarding method. */
  predicate IsOwnCall(c: PersistentCall, binder: object)
  {
    c.target == binder && c.methodName == UpdateTMPTextName
  }

  /** Matching needs both halves: a call naming the forwarding method on
      another object, or another method on the binder, is not own. */
  lemma IsOwnCallNeedsBoth(binder: object, other: object?, name: string)
    ensures other != binder ==> !IsOwnCall(PersistentCall(other, UpdateTMPTextName), binder)
    ensures name != UpdateTMPTextName ==> !IsOwnCall(PersistentCall(binder, name), binder)
    ensures IsOwnCall(PersistentCall(binder, UpdateTMPTextName), binder)
  {
  }

  /** The call `binder` registers for itself. */
  function OwnCall(binder: object): (c: PersistentCall)
    ensures IsOwnCall(c, binder)
  {
    PersistentCall(binder, UpdateTMPTextName)
  }

  /** Some index of the list holds a call belonging to `binder`. */
  predicate HasOwnCall(s: seq<PersistentCall>, binder: object)
  {
    exists i :: 0 <= i < |s| && IsOwnCall(s[i], binder)
  }

  /** How many entries of the list belong to `binder`; the measure in which
      "at most one subscription" and "all removed" are stated. */
  function OwnCount(s: seq<PersistentCall>, binder: object): (n: nat)
    ensures n <= |s|
  {
    if s == [] then 0
    else (if IsOwnCall(s[0], binder) then 1 else 0) + OwnCount(s[1..], binder)
  }

  /** The list after attaching: unchanged when `binder` is already
      subscribed, otherwise its own call appended at the end. */
  function WithOwnCall(s: seq<PersistentCall>, binder: object): (r: seq<PersistentCall>)
    ensures HasOwnCall(r, binder)
    ensures s <= r && |r| <= |s| + 1
  {
    if HasOwnCall(s, binder) then s
    else
      var r := s + [OwnCall(binder)];
      assert r[|s|] == OwnCall(binder);
      r
  }

  /** The list with every call belonging to `binder` deleted and every other
      entry kept, in its original order. */
  function WithoutOwnCalls(s: seq<PersistentCall>, binder: object): (r: seq<PersistentCall>)
    ensures !HasOwnCall(r, binder)
    ensures |r| <= |s|
    ensures forall i :: 0 <= i < |r| ==> r[i] in s && !IsOwnCall(r[i], binder)
    ensures forall i :: 0 <= i < |s| && !IsOwnCall(s[i], binder) ==> s[i] in r
  {
    if s == [] then []
    else
      var rest := WithoutOwnCalls(s[1..], binder);
      if IsOwnCall(s[0], binder) then rest else [s[0]] + rest
  }

  /** The list after `n` successive attach calls. */
  function AttachedTimes(s: seq<PersistentCall>, binder: object, n: nat): (r: seq<PersistentCall>)
  {
    if n == 0 then s else WithOwnCall(AttachedTimes(s, binder, n - 1), binder)
  }

  // ---------------------------------------------------------------------------
  // Counting

  lemma {:induction false} OwnCountPositive(s: seq<PersistentCall>, binder: object)
    ensures HasOwnCall(s, binder) <==> OwnCount(s, binder) > 0
  {
    if s != [] {
      OwnCountPositive(s[1..], binder);
      if HasOwnCall(s[1..], binder) {
        var i :| 0 <= i < |s[1..]| && IsOwnCall(s[1..][i], binder);
        assert IsOwnCall(s[i + 1], binder);
      }
      if HasOwnCall(s, binder) && !IsOwnCall(s[0], binder) {
        var i :| 0 <= i < |s| && IsOwnCall(s[i], binder);
        assert IsOwnCall(s[1..][i - 1], binder);
      }
    }
  }

  lemma {:induction false} OwnCountAppend(a: seq<PersistentCall>, b: seq<PersistentCall>, binder: object)
    ensures OwnCount(a + b, binder) == OwnCount(a, binder) + OwnCount(b, binder)
  {
    if a != [] {
      assert (a + b)[1..] == a[1..] + b;
      OwnCountAppend(a[1..], b, binder);
    } else {
      assert a + b == b;
    }
  }

  // ---------------------------------------------------------------------------
  // Attaching

  /** Attaching twice is attaching once. */
  lemma WithOwnCallIdempotent(s: seq<PersistentCall>, binder: object)
    ensures WithOwnCall(WithOwnCall(s, binder), binder) == WithOwnCall(s, binder)
  {
  }

  /** Any positive number of attach calls gives the list a single call gives. */
  lemma {:induction false} AttachedTimesIsAttachedOnce(s: seq<PersistentCall>, binder: object, n: nat)
    requires n >= 1
    ensures AttachedTimes(s, binder, n) == WithOwnCall(s, binder)
  {
    if n > 1 {
      AttachedTimesIsAttachedOnce(s, binder, n - 1);
      WithOwnCallIdempotent(s, binder);
    }
  }

  /** Attaching leaves `binder` with exactly one call when it had none, and
      adds nothing when it already had some. */
  lemma WithOwnCallCount(s: seq<PersistentCall>, binder: object)
    ensures OwnCount(WithOwnCall(s, binder), binder)
         == if OwnCount(s, binder) == 0 then 1 else OwnCount(s, binder)
  {
    OwnCountPositive(s, binder);
    if !HasOwnCall(s, binder) {
      OwnCountAppend(s, [OwnCall(binder)], binder);
      assert [OwnCall(binder)][1..] == [];
    }
  }

  /** The attach step keeps "at most one own call" and, from a list without
      one, establishes "exactly one". */
  lemma AttachKeepsAtMostOne(s: seq<PersistentCall>, binder: object, n: nat)
    requires OwnCount(s, binder) <= 1 && n >= 1
    ensures OwnCount(AttachedTimes(s, binder, n), binder) == 1
  {
    AttachedTimesIsAttachedOnce(s, binder, n);
    WithOwnCallCount(s, binder);
  }

  // ---------------------------------------------------------------------------
  // Detaching

  /** Deletion commutes with concatenation, which is what "every other entry
      keeps its relative order" means. */
  lemma {:induction false} WithoutOwnCallsAppend(a: seq<PersistentCall>, b: seq<PersistentCall>, binder: object)
    ensures WithoutOwnCalls(a + b, binder) == WithoutOwnCalls(a, binder) + WithoutOwnCalls(b, binder)
  {
    if a == [] {
      assert a + b == b;
    } else {
      assert (a + b)[0] == a[0];
      assert (a + b)[1..] == a[1..] + b;
      WithoutOwnCallsAppend(a[1..], b, binder);
    }
  }

  /** The shape of one deletion step on any list `p + [x] + tail`: index
      `|p|` holds `x`, and deleting it (or keeping it) gives `p` followed by
      the kept part of `[x]`, then `tail`. */
  lemma DeletionStepShape(p: seq<PersistentCall>, x: PersistentCall, tail: seq<PersistentCall>, own: bool)
    ensures var cur := p + [x] + tail;
      |p| < |cur| && cur[|p|] == x &&
      (if own then cur[..|p|] + cur[|p| + 1..] else cur) == p + ((if own then [] else [x]) + tail)
  {
    var cur := p + [x] + tail;
    assert cur[..|p|] == p;
    assert cur[|p| + 1..] == tail;
  }

  /** One step of the reverse deletion loop: with the entries from `i + 1`
      on already cleaned, deleting index `i` if it is an own call (and
      keeping it otherwise) leaves the entries from `i` on cleaned. */
  lemma ReverseDeletionStep(s: seq<PersistentCall>, binder: object, i: nat)
    requires i < |s|
    ensures var cur := s[..i + 1] + WithoutOwnCalls(s[i + 1..], binder);
      i < |cur| && cur[i] == s[i] &&
      (if IsOwnCall(s[i], binder) then cur[..i] + cur[i + 1..] else cur)
        == s[..i] + WithoutOwnCalls(s[i..], binder)
  {
    var tail := WithoutOwnCalls(s[i + 1..], binder);
    assert s[i..][0] == s[i];
    assert s[i..][1..] == s[i + 1..];
    assert WithoutOwnCalls(s[i..], binder) == (if IsOwnCall(s[i], binder) then [] else [s[i]]) + tail;
    assert s[..i + 1] == s[..i] + [s[i]];
    DeletionStepShape(s[..i], s[i], tail, IsOwnCall(s[i], binder));
  }

  /** Deletion touches nothing when `binder` has no call in the list. */
  lemma {:induction false} WithoutOwnCallsNoOp(s: seq<PersistentCall>, binder: object)
    requires !HasOwnCall(s, binder)
    ensures WithoutOwnCalls(s, binder) == s
  {
    if s != [] {
      assert !IsOwnCall(s[0], binder);
      assert forall i :: 0 <= i < |s| - 1 ==> s[1..][i] == s[i + 1];
      WithoutOwnCallsNoOp(s[1..], binder);
      assert s == [s[0]] + s[1..];
    }
  }

  /** Deletion removes exactly `binder`'s calls: each other call keeps its
      multiplicity, every own call is gone, and the length drops by the
      number of own calls. */
  lemma {:induction false} WithoutOwnCallsCounts(s: seq<PersistentCall>, binder: object)
    ensures forall c :: !IsOwnCall(c, binder) ==> multiset(WithoutOwnCalls(s, binder))[c] == multiset(s)[c]
    ensures OwnCount(WithoutOwnCalls(s, binder), binder) == 0
    ensures |WithoutOwnCalls(s, binder)| == |s| - OwnCount(s, binder)
  {
    var r := WithoutOwnCalls(s, binder);
    OwnCountPositive(r, binder);
    if s != [] {
      WithoutOwnCallsCounts(s[1..], binder);
      assert s == [s[0]] + s[1..];
      assert multiset(s) == multiset{s[0]} + multiset(s[1..]);
      if !IsOwnCall(s[0], binder) {
        assert multiset(r) == multiset{s[0]} + multiset(WithoutOwnCalls(s[1..], binder));
      }
    }
  }

  /** Attaching and then detaching leaves what detaching alone leaves; for a
      list without an own call that is the list itself. */
  lemma DetachAfterAttach(s: seq<PersistentCall>, binder: object)
    ensures WithoutOwnCalls(WithOwnCall(s, binder), binder) == WithoutOwnCalls(s, binder)
    ensures !HasOwnCall(s, binder) ==> WithoutOwnCalls(WithOwnCall(s, binder), binder) == s
  {
    if !HasOwnCall(s, binder) {
      WithoutOwnCallsAppend(s, [OwnCall(binder)], binder);
      assert [OwnCall(binder)][1..] == [];
      WithoutOwnCallsNoOp(s, binder);
    }
  }

  /** Attaching after detaching gives the other calls followed by one own call. */
  lemma AttachAfterDetach(s: seq<PersistentCall>, binder: object)
    ensures WithOwnCall(WithoutOwnCalls(s, binder), binder) == WithoutOwnCalls(s, binder) + [OwnCall(binder)]
  {
  }
}
