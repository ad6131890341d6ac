/**
 What an actor is given when an invocation is accepted: an emptied invocation names, by its id, the stored object
 its payload is taken from, and the id is not part of what its token signs.
 */
module SignedPayloads {
  import opened Invocations
  import opened Options
  import P = Payloads

  /** The payload taken for an accepted invocation. */
  function Taken(store: P.Store, inv: Invocation): string {
    P.Receive(store, P.Request(inv.id, inv.msg, inv.contentLength)).1
  }

  /** The invocation carries a token made for another set of arguments, and is accepted with it. */
  ghost predicate AcceptedWith(inv: Invocation, validIssuers: set<string>, signed: Invocation) {
    && signed == New(signed.hostId, signed.origin, signed.target, signed.operation, signed.msg, signed.id)
    && inv.token == signed.token && ValidateAntiforgery(inv, validIssuers).Accepted?
    && '/' !in inv.operation && '/' !in signed.operation
  }

  /**
   Exactly when the actor gets the payload that was signed. If the payload came along it does; if the declared
   length exceeds what came along, it is what the store has under the invocation's id, whoever put it there.
   */
  lemma TakenIsSignedIff(store: P.Store, inv: Invocation, validIssuers: set<string>, signed: Invocation)
    requires AcceptedWith(inv, validIssuers, signed)
    ensures Taken(store, inv) == signed.msg <==>
      if inv.contentLength <= |inv.msg| then inv.msg != "" || signed.msg == ""
      else if store.Objects? && inv.id in store.objects then store.objects[inv.id] == signed.msg
      else signed.msg == ""
  {
    AcceptanceFixesInvocation(inv, validIssuers, signed.hostId, signed.origin, signed.target, signed.operation,
                              signed.msg, signed.id);
  }

  /** After any run of calls: what the store has is the payload, or response, of the call the id belongs to. */
  lemma TakenInRunIff(steps: seq<P.Step>, w: P.World, inv: Invocation, validIssuers: set<string>, signed: Invocation)
    requires P.Reaches(P.Start(true), steps, w) && AcceptedWith(inv, validIssuers, signed)
    requires inv.contentLength > |inv.msg|
    ensures var stored := P.Expected(w.calls, inv.id);
      Taken(w.store, inv) == signed.msg <==> if stored.Some? then stored.value == signed.msg else signed.msg == ""
  {
    P.StoreHoldsWhatIsOwed(steps, w);
    assert Get(w.store.objects, inv.id) == P.Expected(w.calls, inv.id);
    TakenIsSignedIff(w.store, inv, validIssuers, signed);
  }

  /** With its own id, an emptied invocation on its way has its own payload in the store; so it gets what was signed. */
  lemma OwnIdGetsOwnPayload(steps: seq<P.Step>, w: P.World, inv: Invocation, validIssuers: set<string>,
          signed: Invocation)
    requires P.Reaches(P.Start(true), steps, w) && AcceptedWith(inv, validIssuers, signed)
    requires inv.id == signed.id && inv.contentLength == |signed.msg| && inv.msg == "" && signed.msg != ""
    requires inv.id in w.calls && w.calls[inv.id].payload == signed.msg && P.RequestStored(w.calls[inv.id])
    ensures Taken(w.store, inv) == signed.msg
  {
    P.StoreHoldsWhatIsOwed(steps, w);
    assert Get(w.store.objects, inv.id) == P.Expected(w.calls, inv.id);
    TakenIsSignedIff(w.store, inv, validIssuers, signed);
  }

  /** An emptied invocation with another id: still signed by its own token, and accepted as before. */
  lemma RelabelledIsAccepted(signed: Invocation, validIssuers: set<string>, id: string)
    requires AcceptedWith(signed, validIssuers, signed)
    ensures AcceptedWith(Emptied(signed).(id := id), validIssuers, signed)
  {
  }

  /**
   After any run of calls, an emptied invocation under the id of a call whose large request is still in the store
   is given that call's payload, so the signed one exactly if the two are equal; and the call itself then gets nothing.
   */
  lemma RelabelledTakesStored(steps: seq<P.Step>, w: P.World, signed: Invocation, validIssuers: set<string>, id: string)
    requires P.Reaches(P.Start(true), steps, w) && id in w.calls && P.RequestStored(w.calls[id])
    requires AcceptedWith(signed, validIssuers, signed) && signed.msg != ""
    ensures var inv, stored := Emptied(signed).(id := id), w.calls[id].payload;
      && AcceptedWith(inv, validIssuers, signed) && Taken(w.store, inv) == stored
      && (Taken(w.store, inv) == signed.msg <==> stored == signed.msg)
      && var rest := P.Receive(w.store, P.Request(id, inv.msg, inv.contentLength)).0;
         P.Receive(rest, P.Send(w.store, id, stored).1).1 == ""
  {
    RelabelledIsAccepted(signed, validIssuers, id);
    P.StoreHoldsWhatIsOwed(steps, w);
    assert Get(w.store.objects, id) == P.Expected(w.calls, id);
    assert id in w.store.objects && w.store.objects[id] == w.calls[id].payload;
  }

  const OTHER_ID: string := seq(P.ID_LENGTH, _ => 'b')
  const OTHER: string := seq(P.REQUEST_THRESHOLD + 2, _ => 'y')

  /** Two calls on their way; the first one's invocation, under the second's id, is given the second's payload. */
  lemma RelabelledGetsAnothers(hostKey: string, origin: Entity, target: Entity)
    returns (steps: seq<P.Step>, w: P.World, inv: Invocation)
    requires KeyLooksRight(hostKey)
    ensures P.Reaches(P.Start(true), steps, w) && P.SOME_ID in w.calls && OTHER_ID in w.calls
    ensures var signed := New(hostKey, origin, target, "op", P.LARGE, P.SOME_ID);
      inv == Emptied(signed).(id := OTHER_ID) && AcceptedWith(inv, {hostKey}, signed)
    ensures Taken(w.store, inv) == OTHER != P.LARGE
  {
    var w1 := P.Next(P.Start(true), P.Invoke(P.SOME_ID, P.LARGE));
    var second := P.Invoke(OTHER_ID, OTHER);
    assert P.SOME_ID[0] != OTHER_ID[0];
    w, steps := P.Next(w1, second), [P.Invoke(P.SOME_ID, P.LARGE), second];
    assert steps[1..] == [second] && [second][1..] == [];
    assert P.Reaches(w1, [second], w);
    var signed := New(hostKey, origin, target, "op", P.LARGE, P.SOME_ID);
    inv := Emptied(signed).(id := OTHER_ID);
    BuiltIsAcceptedIff(hostKey, origin, target, "op", P.LARGE, P.SOME_ID, {hostKey});
    assert |P.LARGE| == P.REQUEST_THRESHOLD + 1 && |OTHER| == P.REQUEST_THRESHOLD + 2;
    RelabelledTakesStored(steps, w, signed, {hostKey}, OTHER_ID);
  }
}
