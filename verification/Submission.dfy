/** What the required-field gate of `submit_signature` guarantees about the values it lets
    through to the database (sign/esign.py). The gate tests the value found under the plain
    spelling of a field id; the write goes through `int()` of every key, so that a later,
    different spelling of the same id is stored in its place, untested. */
module Submission {
  import opened Basics
  import opened Records
  import opened Envelope
  import Rotation

  predicate Distinct(keys: seq<Key>) {
    forall i, j :: 0 <= i < j < |keys| ==> keys[i] != keys[j]
  }

  function Zip(keys: seq<Key>, values: seq<Value>): (form: seq<Entry>)
    requires |keys| == |values|
    ensures |form| == |keys|
    ensures forall i :: 0 <= i < |keys| ==> form[i] == Entry(keys[i], values[i])
  {
    seq(|keys|, i requires 0 <= i < |keys| => Entry(keys[i], values[i]))
  }

  /** What passes for a required field of each kind: nothing blank; an image for a signature or
      initials, a tick for a checkbox, any text for the rest. */
  lemma AcceptedByKind(v: Value, name: string)
    ensures Accepts(Signature, v) <==> !v.blank && v.image
    ensures Accepts(Initials, v) <==> !v.blank && v.image
    ensures Accepts(Checkbox, v) <==> !v.blank && v.checked
    ensures Accepts(Plain(name), v) <==> !v.blank
  {
  }

  /** The key whose value the gate reads for a field id. */
  function TestedKey(keys: seq<Key>, id: int): Key {
    if Name(id) in keys then Name(id) else Number(id)
  }

  /** No entry after the tested one names the same field. */
  ghost predicate TestedIsLast(keys: seq<Key>, id: int) {
    forall p, q :: 0 <= p < q < |keys| && keys[p] == TestedKey(keys, id) ==> !Names(keys[q], id)
  }

  predicate NamesOnce(form: seq<Entry>) {
    forall i, j :: 0 <= i < j < |form| ==>
      form[i].key.Junk? || form[j].key.Junk? || form[i].key.id != form[j].key.id
  }

  lemma {:induction false} FindAt(form: seq<Entry>, p: nat)
    requires p < |form| && forall i, j :: 0 <= i < j < |form| ==> form[i].key != form[j].key
    ensures Find(form, form[p].key) == Some(form[p].value)
  {
    if p > 0 {
      FindAt(form[1..], p - 1);
    }
  }

  lemma {:induction false} FindSome(form: seq<Entry>, k: Key)
    ensures Find(form, k).Some? <==> exists p :: 0 <= p < |form| && form[p].key == k
  {
    if form != [] {
      FindSome(form[1..], k);
      if p :| 0 <= p < |form| && form[p].key == k {
        assert p == 0 || form[1..][p - 1].key == k;
      }
      if p :| 0 <= p < |form[1..]| && form[1..][p].key == k {
        assert form[p + 1].key == k;
      }
    }
  }

  lemma {:induction false} LastNamedAt(form: seq<Entry>, id: int, p: nat)
    requires p < |form| && Names(form[p].key, id)
    requires forall q :: p < q < |form| ==> !Names(form[q].key, id)
    ensures LastNamed(form, id) == Some(form[p].value)
  {
    if p < |form| - 1 {
      LastNamedAt(form[..|form| - 1], id, p);
    }
  }

  lemma {:induction false} LastNamedNone(form: seq<Entry>, id: int)
    requires forall q :: 0 <= q < |form| ==> !Names(form[q].key, id)
    ensures LastNamed(form, id) == None
  {
    if form != [] {
      LastNamedNone(form[..|form| - 1], id);
    }
  }

  /** The tested value sits at the position of the tested key. */
  lemma LookupAt(keys: seq<Key>, values: seq<Value>, id: int, p: nat)
    requires |keys| == |values| && Distinct(keys) && p < |keys| && keys[p] == TestedKey(keys, id)
    ensures Lookup(Zip(keys, values), id) == Some(values[p])
  {
    var form := Zip(keys, values);
    FindAt(form, p);
    FindSome(form, Name(id));
    if Name(id) !in keys {
      assert forall q :: 0 <= q < |form| ==> form[q].key != Name(id);
    }
  }

  lemma LookupNone(keys: seq<Key>, values: seq<Value>, id: int)
    requires |keys| == |values| && TestedKey(keys, id) !in keys
    ensures Lookup(Zip(keys, values), id) == None
  {
    var form := Zip(keys, values);
    FindSome(form, Name(id));
    FindSome(form, Number(id));
    assert forall q :: 0 <= q < |form| ==> form[q].key in keys;
  }

  ghost predicate TestedPasses(keys: seq<Key>, values: seq<Value>, id: int, kind: Kind)
    requires |keys| == |values|
  {
    var v := Lookup(Zip(keys, values), id);
    v.Some? && Accepts(kind, v.value)
  }

  ghost predicate StoredPasses(keys: seq<Key>, values: seq<Value>, id: int, kind: Kind)
    requires |keys| == |values|
  {
    var v := LastNamed(Zip(keys, values), id);
    v.Some? && Accepts(kind, v.value)
  }

  /** With the tested key last, what is tested is what is stored. */
  lemma TestedIsStored(keys: seq<Key>, values: seq<Value>, id: int)
    requires |keys| == |values| && Distinct(keys) && TestedIsLast(keys, id)
    requires Lookup(Zip(keys, values), id).Some?
    ensures LastNamed(Zip(keys, values), id) == Lookup(Zip(keys, values), id)
  {
    if TestedKey(keys, id) !in keys {
      LookupNone(keys, values, id);
    } else {
      var p :| 0 <= p < |keys| && keys[p] == TestedKey(keys, id);
      LookupAt(keys, values, id, p);
      LastNamedAt(Zip(keys, values), id, p);
    }
  }

  /** A later spelling can smuggle a value past the gate. */
  lemma LaterSpellingStored(keys: seq<Key>, id: int, p: nat, q: nat) returns (values: seq<Value>)
    requires Distinct(keys) && p < q < |keys| && keys[p] == TestedKey(keys, id) && Names(keys[q], id)
    ensures |values| == |keys|
    ensures forall kind :: TestedPasses(keys, values, id, kind) && !StoredPasses(keys, values, id, kind)
  {
    var last := q;
    while exists r :: last < r < |keys| && Names(keys[r], id)
      invariant q <= last < |keys| && Names(keys[last], id)
      decreases |keys| - last
    {
      var r :| last < r < |keys| && Names(keys[r], id);
      last := r;
    }
    var good := Value("x", false, true, true, true);
    values := seq(|keys|, i requires 0 <= i < |keys| => if i == last then EMPTY else good);
    LookupAt(keys, values, id, p);
    LastNamedAt(Zip(keys, values), id, last);
  }

  /** The gate protects a required field, whatever the values, exactly when the key it tests
      is the last one to name the field. */
  lemma GateProtectsIffTestedLast(keys: seq<Key>, id: int, kind: Kind)
    requires Distinct(keys)
    ensures (forall values: seq<Value> :: |values| == |keys| && TestedPasses(keys, values, id, kind)
               ==> StoredPasses(keys, values, id, kind))
       <==> TestedIsLast(keys, id)
  {
    if TestedIsLast(keys, id) {
      forall values: seq<Value> | |values| == |keys| && TestedPasses(keys, values, id, kind)
        ensures StoredPasses(keys, values, id, kind)
      {
        TestedIsStored(keys, values, id);
      }
    } else {
      var p, q :| 0 <= p < q < |keys| && keys[p] == TestedKey(keys, id) && Names(keys[q], id);
      var values := LaterSpellingStored(keys, id, p, q);
      assert TestedPasses(keys, values, id, kind) && !StoredPasses(keys, values, id, kind);
    }
  }

  /** An accepted submission with the id 7 spelled twice leaves a required signature blank. */
  lemma TwoSpellingsStoreABlank() returns (form: Form, f: Field)
    ensures RequiredOf(f, 0) && f.kind == Signature
    ensures GatePasses([f], 0, form) && !(exists e :: e in form && e.key.Junk?)
    ensures WriteValues([f], 0, form)[0].value.blank
  {
    var image := Value("data:image/png;base64,iVBORw0KGgo=", false, true, true, false);
    form := [Entry(Name(7), image), Entry(Alias(" 7", 7), EMPTY)];
    f := Field(7, Some(0), Signature, 0, Rotation.Rect(0.1, 0.8, 0.3, 0.1), true, EMPTY, "", false, "", "");
    FindAt(form, 0);
    LastNamedAt(form, 7, 1);
  }

  function Keys(form: seq<Entry>): seq<Key> {
    MapSeq(form, (e: Entry) => e.key)
  }

  lemma NamesOnceTestsLast(form: Form, id: int)
    requires NamesOnce(form)
    ensures TestedIsLast(Keys(form), id)
  {
  }

  /** So every required field whose tested key is the last to name it holds, once the form was
      let through, a submitted value that passes its test. */
  lemma AcceptedFormStoresGoodValues(fields: seq<Field>, i: nat, form: Form, k: nat)
    requires GatePasses(fields, i, form)
    requires k < |fields| && RequiredOf(fields[k], i) && TestedIsLast(Keys(form), fields[k].id)
    ensures Accepts(fields[k].kind, WriteValues(fields, i, form)[k].value)
    ensures exists j :: 0 <= j < |form| && form[j].value == WriteValues(fields, i, form)[k].value
  {
    var values := MapSeq(form, (e: Entry) => e.value);
    assert Zip(Keys(form), values) == form;
    TestedIsStored(Keys(form), values, fields[k].id);
    var j := LastNamedSubmitted(form, fields[k].id);
  }

  lemma {:induction false} LastNamedSubmitted(form: seq<Entry>, id: int) returns (j: nat)
    requires LastNamed(form, id).Some?
    ensures j < |form| && form[j].value == LastNamed(form, id).value
  {
    j := |form| - 1;
    if !Names(form[j].key, id) {
      j := LastNamedSubmitted(form[..j], id);
    }
  }
}
