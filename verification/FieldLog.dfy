/** What a recorded submission leaves in the audit log: one signing for each signature or
    initials field it names, and one adoption for each different image among them. */
module FieldLog {
  import opened Basics
  import opened Records
  import opened Envelope

  /** Some key of the form names the id. */
  predicate NamedIn(form: seq<Entry>, id: int) {
    exists j :: 0 <= j < |form| && Names(form[j].key, id)
  }

  predicate NoRepeats(ids: seq<int>) {
    forall j, k :: 0 <= j < k < |ids| ==> ids[j] != ids[k]
  }

  /** The ids that are written are those that are named, each once. */
  lemma {:induction false} NamedIdsAreNamed(form: seq<Entry>)
    ensures NoRepeats(NamedIds(form)) && forall id :: id in NamedIds(form) <==> NamedIn(form, id)
  {
    if form != [] {
      var before, last := form[..|form| - 1], form[|form| - 1];
      NamedIdsAreNamed(before);
      forall id
        ensures NamedIn(form, id) <==> NamedIn(before, id) || Names(last.key, id)
      {
        if NamedIn(before, id) {
          var j :| 0 <= j < |before| && Names(before[j].key, id);
          assert form[j] == before[j];
        }
      }
    }
  }

  lemma {:induction false} NamedHasValue(form: seq<Entry>, id: int)
    requires NamedIn(form, id)
    ensures LastNamed(form, id).Some?
  {
    var last := form[|form| - 1];
    if !Names(last.key, id) {
      var j :| 0 <= j < |form| && Names(form[j].key, id);
      assert form[..|form| - 1][j] == form[j];
      NamedHasValue(form[..|form| - 1], id);
    }
  }

  predicate IsImageField(fields: seq<Field>, id: int) {
    KindOf(fields, id) == Some(Signature) || KindOf(fields, id) == Some(Initials)
  }

  /** The named signature and initials fields. */
  function ImageIds(fields: seq<Field>, ids: seq<int>): set<int> {
    set id | id in ids && IsImageField(fields, id)
  }

  /** The texts stored in them, but for empty ones. */
  function Images(fields: seq<Field>, ids: seq<int>, form: seq<Entry>): set<string> {
    set id | id in ids && IsImageField(fields, id) && LastNamed(form, id).Some? && LastNamed(form, id).value.text != ""
      :: LastNamed(form, id).value.text
  }

  function CountOf(events: seq<Event>, kind: EventKind): nat {
    if events == [] then 0 else (if events[0].kind == kind then 1 else 0) + CountOf(events[1..], kind)
  }

  lemma {:induction false} CountAppend(a: seq<Event>, b: seq<Event>, kind: EventKind)
    ensures CountOf(a + b, kind) == CountOf(a, kind) + CountOf(b, kind)
  {
    if a == [] {
      assert a + b == b;
    } else {
      assert (a + b)[1..] == a[1..] + b;
      CountAppend(a[1..], b, kind);
    }
  }

  /** What one id adds. */
  function OneLog(fields: seq<Field>, id: int, form: seq<Entry>, i: nat, adopted: set<string>): seq<Event> {
    var v := LastNamed(form, id);
    if IsImageField(fields, id) && v.Some? then
      if v.value.text != "" && v.value.text !in adopted then [By(EvFieldSigned, i), By(EvAdopted, i)] else [By(EvFieldSigned, i)]
    else []
  }

  function Adopting(fields: seq<Field>, id: int, form: seq<Entry>, adopted: set<string>): set<string> {
    adopted + Images(fields, [id], form)
  }

  lemma FieldEventsStep(fields: seq<Field>, ids: seq<int>, form: seq<Entry>, i: nat, adopted: set<string>)
    requires ids != []
    ensures FieldEvents(fields, ids, form, i, adopted)
         == OneLog(fields, ids[0], form, i, adopted) + FieldEvents(fields, ids[1..], form, i, Adopting(fields, ids[0], form, adopted))
  {
    var id := ids[0];
    var v := LastNamed(form, id);
    if IsImageField(fields, id) && v.Some? && v.value.text != "" {
      assert Images(fields, [id], form) == {v.value.text};
      assert v.value.text in adopted ==> adopted + {v.value.text} == adopted;
    } else {
      assert Images(fields, [id], form) == {};
      assert adopted + {} == adopted;
    }
    assert [] + FieldEvents(fields, ids[1..], form, i, adopted) == FieldEvents(fields, ids[1..], form, i, adopted);
  }

  lemma CountFew(e: Event, f: Event, kind: EventKind)
    ensures CountOf([e], kind) == if e.kind == kind then 1 else 0
    ensures CountOf([e, f], kind) == (if e.kind == kind then 1 else 0) + if f.kind == kind then 1 else 0
  {
    assert [e][1..] == [];
    assert [e, f][1..] == [f] && [f][1..] == [];
  }

  lemma OneLogCounts(fields: seq<Field>, id: int, form: seq<Entry>, i: nat, adopted: set<string>)
    requires LastNamed(form, id).Some?
    ensures CountOf(OneLog(fields, id, form, i, adopted), EvFieldSigned) == |ImageIds(fields, [id])|
    ensures CountOf(OneLog(fields, id, form, i, adopted), EvAdopted) == |Images(fields, [id], form) - adopted|
  {
    var text := LastNamed(form, id).value.text;
    CountFew(By(EvFieldSigned, i), By(EvAdopted, i), EvFieldSigned);
    CountFew(By(EvFieldSigned, i), By(EvAdopted, i), EvAdopted);
    if !IsImageField(fields, id) {
      assert ImageIds(fields, [id]) == {} && Images(fields, [id], form) - adopted == {};
    } else {
      assert ImageIds(fields, [id]) == {id};
      if text != "" && text !in adopted {
        assert Images(fields, [id], form) - adopted == {text};
      } else {
        assert Images(fields, [id], form) - adopted == {};
      }
    }
  }

  lemma PartsOf(fields: seq<Field>, ids: seq<int>, form: seq<Entry>, adopted: set<string>)
    requires ids != [] && NoRepeats(ids)
    ensures |ImageIds(fields, ids)| == |ImageIds(fields, [ids[0]])| + |ImageIds(fields, ids[1..])|
    ensures |Images(fields, ids, form) - adopted|
         == |Images(fields, [ids[0]], form) - adopted| + |Images(fields, ids[1..], form) - Adopting(fields, ids[0], form, adopted)|
  {
    var first, rest := [ids[0]], ids[1..];
    assert forall id :: id in ids <==> id == ids[0] || id in rest;
    assert ids[0] !in rest;
    assert ImageIds(fields, ids) == ImageIds(fields, first) + ImageIds(fields, rest);
    assert ImageIds(fields, first) !! ImageIds(fields, rest);
    var a, b := Images(fields, first, form) - adopted, Images(fields, rest, form) - Adopting(fields, ids[0], form, adopted);
    assert Images(fields, ids, form) == Images(fields, first, form) + Images(fields, rest, form);
    assert Images(fields, ids, form) - adopted == a + b;
    assert a !! b;
  }

  lemma {:induction false} FieldEventsCount(fields: seq<Field>, ids: seq<int>, form: seq<Entry>, i: nat, adopted: set<string>)
    requires NoRepeats(ids) && forall id :: id in ids ==> LastNamed(form, id).Some?
    ensures CountOf(FieldEvents(fields, ids, form, i, adopted), EvFieldSigned) == |ImageIds(fields, ids)|
    ensures CountOf(FieldEvents(fields, ids, form, i, adopted), EvAdopted) == |Images(fields, ids, form) - adopted|
    decreases |ids|
  {
    if ids != [] {
      var more, after := OneLog(fields, ids[0], form, i, adopted), Adopting(fields, ids[0], form, adopted);
      var rest := FieldEvents(fields, ids[1..], form, i, after);
      FieldEventsStep(fields, ids, form, i, adopted);
      FieldEventsCount(fields, ids[1..], form, i, after);
      OneLogCounts(fields, ids[0], form, i, adopted);
      PartsOf(fields, ids, form, adopted);
      CountAppend(more, rest, EvFieldSigned);
      CountAppend(more, rest, EvAdopted);
    } else {
      assert ImageIds(fields, ids) == {} && Images(fields, ids, form) - adopted == {};
    }
  }

  /** Nothing else is logged, and all in the signer's name. */
  predicate OnlyBy(log: seq<Event>, i: nat) {
    forall k :: 0 <= k < |log| ==> log[k] == By(EvFieldSigned, i) || log[k] == By(EvAdopted, i)
  }

  lemma {:induction false} FieldEventsOnlyBy(fields: seq<Field>, ids: seq<int>, form: seq<Entry>, i: nat, adopted: set<string>)
    ensures OnlyBy(FieldEvents(fields, ids, form, i, adopted), i)
    decreases |ids|
  {
    if ids != [] {
      FieldEventsStep(fields, ids, form, i, adopted);
      FieldEventsOnlyBy(fields, ids[1..], form, i, Adopting(fields, ids[0], form, adopted));
    }
  }

  /** A recorded submission adds to the log, in the signer's name: a signing for each named
      signature or initials field, an adoption for each different image stored in them, and at
      the end that the signer signed. */
  lemma SubmissionIsLogged(a: Agreement, i: nat, form: Form, consent: bool, now: real) returns (log: seq<Event>)
    requires Submit(a, i, form, consent, now).Recorded?
    ensures Submit(a, i, form, consent, now).next.events == a.events + log + [By(EvSigned, i)]
    ensures var ids := NamedIds(form);
            && CountOf(log, EvFieldSigned) == |ImageIds(a.doc.fields, ids)|
            && CountOf(log, EvAdopted) == |Images(a.doc.fields, ids, form)|
    ensures OnlyBy(log, i)
    ensures forall id :: id in NamedIds(form) <==> NamedIn(form, id)
  {
    SubmitAllowed(a, i, form, consent, now);
    NamedIdsAreNamed(form);
    forall id | id in NamedIds(form)
      ensures LastNamed(form, id).Some?
    {
      NamedHasValue(form, id);
    }
    log := FieldEvents(a.doc.fields, NamedIds(form), form, i, {});
    FieldEventsCount(a.doc.fields, NamedIds(form), form, i, {});
    FieldEventsOnlyBy(a.doc.fields, NamedIds(form), form, i, {});
    assert Images(a.doc.fields, NamedIds(form), form) - {} == Images(a.doc.fields, NamedIds(form), form);
    Assoc(a.events, log, [By(EvSigned, i)]);
  }
}
