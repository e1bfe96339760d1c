/** The engine's calls as the program runs them: statements that update the stored rows of one
    agreement, each proved to make exactly the transaction of module Envelope it stands for. */
module EnvelopeStore {
  import opened Basics
  import opened Records
  import opened E = Envelope
  import Pages
  import Stamping

  class Store {
    var status: Status
    var sealingAt: Option<real>
    var sequential: bool
    var createdAt: real
    var sentAt: Option<real>
    var expiresAt: Option<real>
    var doc: Pages.Draft
    var frozen: Option<seq<Pages.CopyPage>>
    var executed: Option<Executed>
    var signers: seq<Signer>
    var events: seq<Event>

    constructor (pages: seq<Pages.Page>, now: real)
      ensures Row() == Agreement(Drafting, None, false, now, None, None, Pages.Draft(pages, [], ""), None, None, [], [])
    {
      status, sealingAt, sequential, createdAt := Drafting, None, false, now;
      sentAt, expiresAt, frozen, executed := None, None, None, None;
      doc, signers, events := Pages.Draft(pages, [], ""), [], [];
    }

    function Row(): Agreement
      reads this
    {
      Agreement(status, sealingAt, sequential, createdAt, sentAt, expiresAt, doc, frozen, executed, signers, events)
    }

    /** `send`: one token and two events per signer, then the freeze, then the status. */
    method Send(tokens: seq<nat>, now: real) returns (ok: bool)
      requires |tokens| == |signers|
      modifies this
      ensures ok == E.Send(old(Row()), tokens, now).Some?
      ensures Row() == if ok then E.Send(old(Row()), tokens, now).value else old(Row())
    {
      if signers == [] || status != Drafting {
        return false;
      }
      var copy := Pages.Freeze(doc);
      if copy.None? {
        return false;
      }
      DispatchAll(tokens);
      frozen := copy;
      events := events + [Of(EvFrozen)];
      status := OutForSignature;
      sentAt := Some(now);
      expiresAt := Some(now + LINK_TTL);
      return true;
    }

    /** The loop of `send`: a token, a status and two events for every signer. */
    method DispatchAll(tokens: seq<nat>)
      requires |tokens| == |signers|
      modifies this
      ensures Row() == old(Row()).(
        signers := Dispatched(old(signers), tokens),
        events := old(events) + SentEvents(|tokens|))
    {
      var i, n := 0, |signers|;
      while i < n
        invariant 0 <= i <= n == |signers| && Row() == old(Row()).(signers := signers, events := events)
        invariant forall k :: 0 <= k < i ==> signers[k] == SendTo(old(signers)[k], tokens[k])
        invariant forall k :: i <= k < n ==> signers[k] == old(signers)[k]
        invariant events == old(events) + SentEvents(i)
      {
        signers := signers[i := SendTo(signers[i], tokens[i])];
        events := events + [By(EvSent, i)];
        events := events + [By(EvAuthenticated, i)];
        i := i + 1;
      }
    }

    method SelfSign(i: nat, token: nat, now: real) returns (ok: bool)
      modifies this
      ensures ok == E.SelfSign(old(Row()), i, token, now).Some?
      ensures Row() == if ok then E.SelfSign(old(Row()), i, token, now).value else old(Row())
    {
      if i >= |signers| || signers[i].status == Signed {
        return false;
      }
      if signers[i].token.None? {
        signers := signers[i := signers[i].(token := Some(token))];
      }
      if status == Drafting {
        status := OutForSignature;
        if sentAt.None? {
          sentAt := Some(now);
        }
      }
      events := events + [By(EvSelfSign, i)];
      return true;
    }

    method View(i: nat, now: real) returns (shown: bool)
      modifies this
      ensures shown == E.View(old(Row()), i, now).Some?
      ensures Row() == if shown then E.View(old(Row()), i, now).value else old(Row())
    {
      if !HoldsToken(Row(), i) || status == Voided || status == Cancelled || status == Declined {
        return false;
      }
      var s := signers[i];
      if s.status != Signed && (status == Expired || (status != Completed && LinkExpired(Row(), now))) {
        return false;
      }
      if s.status == Sent || s.status == Viewed {
        if !s.viewed {
          signers := signers[i := s.(status := Viewed, viewed := true)];
        }
        events := events + [By(EvViewed, i)];
      }
      return true;
    }

    method Withdraw(i: nat) returns (ok: bool)
      modifies this
      ensures ok == E.Withdraw(old(Row()), i).Some?
      ensures Row() == if ok then E.Withdraw(old(Row()), i).value else old(Row())
    {
      if !HoldsToken(Row(), i) || signers[i].lockUnmet {
        return false;
      }
      if signers[i].withdrawn {
        return true;
      }
      var completed := status == Completed;
      signers := signers[i := signers[i].(withdrawn := true)];
      events := events + [By(EvWithdrawn, i)];
      if !completed {
        signers := signers[i := signers[i].(status := SignerDeclined)];
        if status != Completed && status != Voided && status != Cancelled {
          status := Declined;
        }
      }
      return true;
    }

    method Decline(i: nat) returns (ok: bool)
      modifies this
      ensures ok == E.Decline(old(Row()), i).Some?
      ensures Row() == if ok then E.Decline(old(Row()), i).value else old(Row())
    {
      if !HoldsToken(Row(), i) || signers[i].lockUnmet || signers[i].status == Signed {
        return false;
      }
      if status == Completed || status == Voided || status == Cancelled {
        return false;
      }
      signers := signers[i := signers[i].(status := SignerDeclined)];
      if status != Completed && status != Voided && status != Cancelled {
        status := Declined;
      }
      events := events + [By(EvDeclined, i)];
      return true;
    }

    method Void()
      modifies this
      ensures Row() == E.Void(old(Row()))
    {
      status := Voided;
      events := events + [Of(EvVoided)];
    }

    /** One row of `sweep_expired`. */
    method Sweep(now: real) returns (changed: bool)
      modifies this
      ensures Row() == E.Sweep(old(Row()), now)
      ensures changed <==> Row() != old(Row())
    {
      changed := false;
      if status == OutForSignature && expiresAt.Some? && expiresAt.value <= now {
        status := Expired;
        events := events + [Of(EvExpired)];
        changed := true;
      }
    }

    /** The required-field gate: every required field of the signer, one after the other. */
    method RequiredFieldsPresent(i: nat, form: Form) returns (ok: bool)
      ensures ok == GatePasses(doc.fields, i, form)
    {
      var k := 0;
      while k < |doc.fields|
        invariant 0 <= k <= |doc.fields|
        invariant forall j :: 0 <= j < k && RequiredOf(doc.fields[j], i) ==> FieldPasses(doc.fields[j], form)
      {
        var f := doc.fields[k];
        if RequiredOf(f, i) {
          var raw := Find(form, Name(f.id));
          if raw.None? {
            raw := Find(form, Number(f.id));
          }
          if raw.None? || raw.value.blank {
            return false;
          }
          if (f.kind == Signature || f.kind == Initials) && !raw.value.image {
            return false;
          }
          if f.kind == Checkbox && !raw.value.checked {
            return false;
          }
        }
        k := k + 1;
      }
      return true;
    }

    /** The clean map: ids in the order they first appear, the last value of each. */
    method Clean(form: Form) returns (ok: bool, ids: seq<int>, values: map<int, Value>)
      ensures ok <==> !exists e :: e in form && e.key.Junk?
      ensures ok ==> ids == NamedIds(form) && values.Keys == set id | id in ids
      ensures ok ==> forall id :: id in values ==> LastNamed(form, id) == Some(values[id])
      ensures ok ==> forall id :: id !in values ==> LastNamed(form, id) == None
    {
      ids, values := [], map[];
      var k := 0;
      while k < |form|
        invariant 0 <= k <= |form|
        invariant forall j :: 0 <= j < k ==> !form[j].key.Junk?
        invariant ids == NamedIds(form[..k]) && values.Keys == set id | id in ids
        invariant forall id :: id in values ==> LastNamed(form[..k], id) == Some(values[id])
        invariant forall id :: id !in values ==> LastNamed(form[..k], id) == None
      {
        var e := form[k];
        if e.key.Junk? {
          assert e in form;
          return false, [], map[];
        }
        assert form[..k + 1][..k] == form[..k] && form[..k + 1][k] == e;
        if e.key.id !in values {
          ids := ids + [e.key.id];
        }
        values := values[e.key.id := e.value];
        k := k + 1;
      }
      assert form[..k] == form;
      return true, ids, values;
    }

    method Submit(i: nat, form: Form, consent: bool, now: real) returns (r: SubmitResult)
      modifies this
      ensures r == E.Submit(old(Row()), i, form, consent, now)
      ensures Row() == if r.Recorded? then r.next else old(Row())
    {
      if !consent {
        return Refused(ConsentRequired);
      }
      if !HoldsToken(Row(), i) {
        return Refused(InvalidLink);
      }
      if signers[i].lockUnmet {
        return Refused(AccessVerification);
      }
      if status == Voided || status == Cancelled || status == Declined {
        return Refused(NotAvailable);
      }
      if status == Expired {
        return Refused(WindowElapsed);
      }
      if status != Completed && LinkExpired(Row(), now) {
        return Refused(StaleLink);
      }
      if signers[i].withdrawn || signers[i].status == SignerDeclined {
        return Refused(Refusal.Withdrawn);
      }
      if signers[i].status == Signed {
        return Already(status != Completed);
      }
      if sequential {
        var waiting := EarlierSignerWaiting(i);
        if waiting {
          return Refused(NotYourTurn);
        }
      }
      if signers[i].consumer && signers[i].consentAt.None? {
        return Refused(ConsumerConsent);
      }
      var present := RequiredFieldsPresent(i, form);
      if !present {
        return Refused(RequiredFields);
      }
      var ok, ids, values := Clean(form);
      if !ok {
        return Refused(MalformedValues);
      }
      WriteAll(i, form, ids, values);
      signers := signers[i := signers[i].(status := Signed)];
      events := events + [By(EvSigned, i)];
      assert Row().events == old(Row()).events + (FieldEvents(old(doc).fields, NamedIds(form), form, i, {}) + [By(EvSigned, i)]);
      return Recorded(Row());
    }

    /** `any(order < mine and status != 'signed')`. */
    method EarlierSignerWaiting(i: nat) returns (waiting: bool)
      requires i < |signers|
      ensures waiting == EarlierUnsigned(signers, i)
    {
      for j := 0 to |signers|
        invariant forall m :: 0 <= m < j ==> !(Turn(signers[m]) < Turn(signers[i]) && signers[m].status != Signed)
      {
        if Turn(signers[j]) < Turn(signers[i]) && signers[j].status != Signed {
          return true;
        }
      }
      return false;
    }

    /** One pass of the write loop; the kinds are those of the fields as they were. */
    method WriteId(i: nat, id: int, v: Value, ghost fields0: seq<Field>, adopted: set<string>) returns (after: set<string>)
      requires |fields0| == |doc.fields|
      requires forall j :: 0 <= j < |fields0| ==> doc.fields[j].id == fields0[j].id && doc.fields[j].kind == fields0[j].kind
      modifies this
      ensures Row() == old(Row()).(
                doc := old(doc).(fields := WriteOne(old(doc).fields, i, id, v)),
                events := old(events) + IdLog(KindOf(fields0, id), v, i, adopted).0)
      ensures after == IdLog(KindOf(fields0, id), v, i, adopted).1
    {
      doc := doc.(fields := WriteOne(doc.fields, i, id, v));
      KindsKept(fields0, doc.fields);
      var more;
      more, after := LogsOf(KindOf(doc.fields, id), v, i, adopted);
      events := events + more;
    }

    /** The write loop: each named id updates the signer's own fields of that id, and logs. */
    method WriteAll(i: nat, form: Form, ids: seq<int>, values: map<int, Value>)
      requires ids == NamedIds(form) && values.Keys == set id | id in ids
      requires forall id :: id in values ==> LastNamed(form, id) == Some(values[id])
      requires forall id :: id !in values ==> LastNamed(form, id) == None
      modifies this
      ensures Row() == old(Row()).(doc := old(doc).(fields := WriteValues(old(doc).fields, i, form)),
                                   events := old(events) + FieldEvents(old(doc).fields, NamedIds(form), form, i, {}))
    {
      ghost var fields0 := doc.fields;
      var adopted: set<string> := {};
      var k := 0;
      assert ids[0..] == ids && Written(fields0, i, form, ids[..0]) == fields0;
      while k < |ids|
        invariant 0 <= k <= |ids|
        invariant Row() == old(Row()).(doc := old(doc).(fields := doc.fields), events := events)
        invariant doc.fields == Written(fields0, i, form, ids[..k])
        invariant LoggedUpTo(old(events), events, fields0, ids, k, form, i, adopted)
      {
        var id := ids[k];
        assert id in values;
        var v := values[id];
        WrittenStep(fields0, i, form, ids[..k], id, v);
        assert ids[..k + 1] == ids[..k] + [id];
        LogStep(old(events), events, fields0, ids, k, form, i, adopted);
        adopted := WriteId(i, id, v, fields0, adopted);
        k := k + 1;
      }
      WrittenAll(fields0, i, form, ids);
      assert ids[..k] == ids;
    }

    method Claim(at: real) returns (claimed: bool)
      modifies this
      ensures claimed == E.Claim(old(Row()), at).Some?
      ensures Row() == if claimed then E.Claim(old(Row()), at).value else old(Row())
    {
      claimed := !Terminal(status) && (status != Sealing || sealingAt.None? || sealingAt.value < at - SEAL_STALE);
      if claimed {
        status, sealingAt := Sealing, Some(at);
      }
    }

    method Complete(copy: Executed)
      modifies this
      ensures Row() == E.Complete(old(Row()), copy)
    {
      status, executed := Completed, Some(copy);
      events := events + [Of(EvSealed)];
      events := events + [Of(EvCompleted)];
    }

    method Release(target: Status)
      modifies this
      ensures Row() == E.Release(old(Row()), target)
    {
      if status == Sealing {
        status := target;
      }
    }
  }

  /** One `UPDATE agreement_fields SET value=? WHERE id=? AND signer_id=?`. */
  function WriteOne(fields: seq<Field>, i: nat, id: int, v: Value): seq<Field> {
    MapSeq(fields, (f: Field) => if f.id == id && f.owner == Some(i) then f.(value := v) else f)
  }

  /** The fields once the ids in `done` have been written. */
  function Written(fields: seq<Field>, i: nat, form: seq<Entry>, done: seq<int>): seq<Field> {
    MapSeq(fields, (f: Field) => if f.id in done then WriteValue(f, i, form) else f)
  }

  lemma WrittenStep(fields: seq<Field>, i: nat, form: seq<Entry>, done: seq<int>, id: int, v: Value)
    requires LastNamed(form, id) == Some(v)
    ensures WriteOne(Written(fields, i, form, done), i, id, v) == Written(fields, i, form, done + [id])
  {
  }

  lemma WrittenAll(fields: seq<Field>, i: nat, form: seq<Entry>, ids: seq<int>)
    requires forall id :: id !in ids ==> LastNamed(form, id) == None
    ensures Written(fields, i, form, ids) == WriteValues(fields, i, form)
  {
  }

  /** What one written value adds to the log, and to the images already adopted. */
  method LogsOf(kind: Option<Kind>, v: Value, i: nat, adopted: set<string>) returns (more: seq<Event>, after: set<string>)
    ensures (more, after) == IdLog(kind, v, i, adopted)
  {
    more, after := [], adopted;
    if kind == Some(Signature) || kind == Some(Initials) {
      more := more + [By(EvFieldSigned, i)];
      if v.text != "" && v.text !in adopted {
        after := after + {v.text};
        more := more + [By(EvAdopted, i)];
      }
    }
    assert more == IdLog(kind, v, i, adopted).0;
  }

  /** What the id at hand logs, and the images adopted after it. */
  function IdLog(kind: Option<Kind>, v: Value, i: nat, adopted: set<string>): (seq<Event>, set<string>) {
    var logs := kind == Some(Signature) || kind == Some(Initials);
    var adopts := logs && v.text != "" && v.text !in adopted;
    ((if logs then [By(EvFieldSigned, i)] else []) + (if adopts then [By(EvAdopted, i)] else []),
     if adopts then adopted + {v.text} else adopted)
  }

  /** The first `k` ids have logged their events, the others are still to come. */
  predicate LoggedUpTo(log0: seq<Event>, log: seq<Event>, fields: seq<Field>, ids: seq<int>, k: nat,
                       form: seq<Entry>, i: nat, adopted: set<string>)
  {
    k <= |ids| && log0 + FieldEvents(fields, ids, form, i, {}) == log + FieldEvents(fields, ids[k..], form, i, adopted)
  }

  lemma LogStep(log0: seq<Event>, log: seq<Event>, fields: seq<Field>, ids: seq<int>, k: nat,
                form: seq<Entry>, i: nat, adopted: set<string>)
    requires k < |ids| && LoggedUpTo(log0, log, fields, ids, k, form, i, adopted) && LastNamed(form, ids[k]).Some?
    ensures var (more, after) := IdLog(KindOf(fields, ids[k]), LastNamed(form, ids[k]).value, i, adopted);
            LoggedUpTo(log0, log + more, fields, ids, k + 1, form, i, after)
  {
    var (more, after) := IdLog(KindOf(fields, ids[k]), LastNamed(form, ids[k]).value, i, adopted);
    assert ids[k..][0] == ids[k] && ids[k..][1..] == ids[k + 1..];
    var rest := FieldEvents(fields, ids[k + 1..], form, i, after);
    assert FieldEvents(fields, ids[k..], form, i, adopted) == more + rest;
    assert log + (more + rest) == log + more + rest;
  }

  lemma {:induction false} KindsKept(a: seq<Field>, b: seq<Field>)
    requires |a| == |b| && forall j :: 0 <= j < |a| ==> b[j].id == a[j].id && b[j].kind == a[j].kind
    ensures forall id :: KindOf(b, id) == KindOf(a, id)
  {
    if a != [] {
      KindsKept(a[1..], b[1..]);
    }
  }

  /** The fields that `_seal_and_complete` hands to the stamp. */
  method HandOver(fields: seq<Field>) returns (handed: seq<Field>)
    ensures handed == Handed(fields)
  {
    handed := [];
    var keep := (f: Field) => !f.value.blank;
    assert fields[..0] == [];
    for k := 0 to |fields|
      invariant handed == Filter(fields[..k], keep)
    {
      FilterAppend(fields[..k], [fields[k]], keep);
      assert fields[..k + 1] == fields[..k] + [fields[k]];
      if !fields[k].value.blank {
        handed := handed + [fields[k]];
      }
    }
    assert fields[..|fields|] == fields;
  }

  /** `_seal_and_complete` up to its write: it collects the fields of the row it was given,
      and stamps them on the presented bytes. */
  method Stamp(read: Agreement) returns (copy: Executed)
    ensures copy == ExecutedFrom(read)
  {
    var handed := HandOver(read.doc.fields);
    var base := Presented(read);
    var stamps := Stamping.StampFields(|base|, handed);
    copy := Executed(base, stamps);
  }

  /** `_notify_next_sequential`: the signers whose invitation goes out now. */
  method Invite(a: Agreement) returns (to: set<nat>)
    ensures to == set i | 0 <= i < |a.signers| && InvitedByCascade(a, i)
  {
    to := {};
    if !a.sequential || a.status == Voided || a.status == Cancelled || a.status == Completed {
      return;
    }
    var next := NextTurn(a.signers);
    if next.None? {
      return;
    }
    for i := 0 to |a.signers|
      invariant to == set j | 0 <= j < i && InvitedByCascade(a, j)
    {
      var s := a.signers[i];
      if Turn(s) == next.value && s.status != Signed && s.email != "" && s.token.Some? {
        to := to + {i};
      }
    }
  }
}
