/** Replay or conflict: what the journal decides when a command id is claimed again. */
module JournalTheorems {
  import opened Basics
  import opened Journal
  import J = CanonicalJson
  import T = CanonicalJsonTheorems

  /** The same request: equal device, incarnation and kind, and payloads equal as JSON. */
  ghost predicate SameRequest(a: Identity, b: Identity) {
    a.device == b.device && a.incarnation == b.incarnation && a.kind == b.kind && J.JsonEqual(a.payload, b.payload)
  }

  lemma IdentityObjectIsSupported(id: Identity)
    requires J.WellFormed(id.payload) && J.Supported(id.payload)
    ensures J.WellFormed(IdentityObject(id)) && J.Supported(IdentityObject(id))
  {
    assert DEVICE_ID[0] != INCARNATION[0] && DEVICE_ID[0] != KIND[0] && DEVICE_ID[0] != PAYLOAD[0];
    assert INCARNATION[0] != KIND[0] && INCARNATION[0] != PAYLOAD[0] && KIND[0] != PAYLOAD[0];
  }

  /** Objects with the same keys in the same places are equal when the values in those places are. */
  lemma AlignedObjects(a: J.Value, b: J.Value)
    requires a.Object? && b.Object? && J.WellFormed(a) && J.WellFormed(b)
    requires |a.fields| == |b.fields| && forall i :: 0 <= i < |a.fields| ==> a.fields[i].key == b.fields[i].key
    ensures J.JsonEqual(a, b) <==> forall i :: 0 <= i < |a.fields| ==> J.JsonEqual(a.fields[i].value, b.fields[i].value)
  {
    if J.JsonEqual(a, b) {
      forall i | 0 <= i < |a.fields| ensures J.JsonEqual(a.fields[i].value, b.fields[i].value) {
        assert a.fields[i] in a.fields && b.fields[i] in b.fields;
      }
    }
    assert J.KeysOf(a.fields) == J.KeysOf(b.fields) by {
      AlignedKeys(a.fields, b.fields);
      AlignedKeys(b.fields, a.fields);
    }
  }

  lemma AlignedKeys(a: seq<J.Field>, b: seq<J.Field>)
    requires |a| == |b| && forall i :: 0 <= i < |a| ==> a[i].key == b[i].key
    ensures J.KeysOf(a) <= J.KeysOf(b)
  {
    forall k | k in J.KeysOf(a) ensures k in J.KeysOf(b) {
      var i :| 0 <= i < |a| && a[i].key == k;
      assert b[i] in b;
    }
  }

  lemma StringsAgree(a: J.Text, b: J.Text)
    ensures J.JsonEqual(J.String(a), J.String(b)) <==> a == b
  {
  }

  ghost predicate FieldAgrees(a: Identity, b: Identity, i: nat)
    requires i < 4
  {
    J.JsonEqual(IdentityObject(a).fields[i].value, IdentityObject(b).fields[i].value)
  }

  lemma FieldsAgree(a: Identity, b: Identity)
    ensures (FieldAgrees(a, b, 0) && FieldAgrees(a, b, 1) && FieldAgrees(a, b, 2) && FieldAgrees(a, b, 3)) <==> SameRequest(a, b)
  {
    StringsAgree(a.device, b.device);
    StringsAgree(a.incarnation, b.incarnation);
    StringsAgree(a.kind, b.kind);
  }

  lemma IdentityObjectsAgree(a: Identity, b: Identity)
    requires J.WellFormed(IdentityObject(a)) && J.WellFormed(IdentityObject(b))
    ensures J.JsonEqual(IdentityObject(a), IdentityObject(b)) <==> SameRequest(a, b)
  {
    AlignedObjects(IdentityObject(a), IdentityObject(b));
    FieldsAgree(a, b);
    if SameRequest(a, b) {
      forall i | 0 <= i < 4 ensures FieldAgrees(a, b, i) {
        assert i == 0 || i == 1 || i == 2 || i == 3;
      }
    }
  }

  /** Two requests have the same hash exactly when they are the same request. */
  lemma HashDecidesSameness(a: Identity, b: Identity)
    requires J.WellFormed(a.payload) && J.Supported(a.payload)
    requires J.WellFormed(b.payload) && J.Supported(b.payload)
    ensures CommandHash(a) == CommandHash(b) <==> SameRequest(a, b)
  {
    IdentityObjectIsSupported(a);
    IdentityObjectIsSupported(b);
    IdentityObjectsAgree(a, b);
    T.CanonicalTextDecidesEquality(IdentityObject(a), IdentityObject(b));
  }

  /**
    Claiming an id that exists changes nothing; it returns the stored row exactly when the request is
    the one that created the row, and reports a conflict otherwise.
  */
  lemma ClaimDecision(t: Tables, k: Key, kind: Kind, id: Identity, stored: Identity)
    requires k.sid in t.sessions && k in t.commands
    requires J.WellFormed(id.payload) && J.Supported(id.payload)
    requires J.WellFormed(stored.payload) && J.Supported(stored.payload)
    requires t.commands[k].hash == CommandHash(stored)
    ensures Claim(t, k, kind, id) ==
      (t, if SameRequest(id, stored) then ClaimExisting(t.commands[k]) else ClaimConflict)
  {
    HashDecidesSameness(id, stored);
  }

  /** The payload column reads back as the same request: its hash is the stored one. */
  lemma StoredPayloadRehashes(id: Identity)
    requires J.WellFormed(id.payload) && J.Supported(id.payload)
    ensures var r := J.ParseColumn(J.Encode(id.payload));
            r.Some? && J.Supported(r.value) && CommandHash(id.(payload := r.value)) == CommandHash(id)
  {
    T.ColumnsReadBack(id.payload);
    var back := id.(payload := J.ParseColumn(J.Encode(id.payload)).value);
    T.JsonEqualIsReflexive(id.payload);
    HashDecidesSameness(id, back);
  }

  /** A new id is claimed for its session, unless the payload is refused or there is no such session. */
  lemma NewClaim(t: Tables, k: Key, kind: Kind, id: Identity)
    requires k !in t.commands
    ensures Claim(t, k, kind, id) ==
      if !J.Supported(id.payload) then (t, ClaimBadPayload)
      else if k.sid !in t.sessions then (t, ClaimNoSession)
      else (t.(commands := t.commands[k := Row(kind, J.Encode(IdentityObject(id)), Claimed, [Claimed])]), ClaimCreated)
  {
  }

  /** The steps of the status graph. */
  predicate IsEdge(current: Status, next: Status) {
    || (current.Claimed? && !next.Claimed?)
    || (current.Acknowledged? && (next.Completed? || next.Failed? || next.OutcomeUnknown? || next.NotDispatched?))
  }

  /** A status change is accepted along the graph, or when it is no change; a failure needs an error, and its text must fit. */
  lemma TransitionDecision(t: Tables, k: Key, next: Status, error: ErrorText)
    requires k in t.commands && k.sid in t.sessions
    ensures var row, fits := t.commands[k], error.Some? ==> 0 < error.value <= 16_384;
            Transition(t, k, next, error) ==
              if fits && row.status == next then (t, true)
              else if fits && IsEdge(row.status, next) && (next.Failed? ==> error.Some?) then
                (t.(commands := t.commands[k := row.(status := next, history := row.history + [next])]), true)
              else (t, false)
  {
  }

  /** The names of the special commands. */
  lemma KindsAreSpelled()
    ensures J.Spells(KindText(Prompt), "prompt") && J.Spells(KindText(AbortAndPrompt), "abort_and_prompt")
    ensures J.Spells(KindText(NewSession), "new_session") && J.Spells(KindText(SwitchSession), "switch_session")
    ensures J.Spells(KindText(Branch), "branch") && J.Spells(KindText(UiResponse), "ui_response")
  {
  }

  /** What is hashed: device, incarnation, kind and payload under these keys. */
  lemma IdentityIsSpelled(id: Identity)
    ensures var v := IdentityObject(id);
            && v.Object? && |v.fields| == 4
            && J.Spells(v.fields[0].key, "deviceId") && v.fields[0].value == J.String(id.device)
            && J.Spells(v.fields[1].key, "incarnation") && v.fields[1].value == J.String(id.incarnation)
            && J.Spells(v.fields[2].key, "kind") && v.fields[2].value == J.String(id.kind)
            && J.Spells(v.fields[3].key, "payload") && v.fields[3].value == id.payload
  {
  }
}
