/** Templates (`_tpl_snapshot_signers`, `create_template`, `instantiate_agreement_from_template`,
    `set_signers`, `set_fields` in sign/esign.py): saving an agreement's layout and making a
    new draft from it. An absent text is the empty text. */
module Templates {
  import opened Basics
  import Csv

  datatype Box = Box(page: int, x: real, y: real, w: real, h: real)
  datatype Content = Content(
    kind: string, box: Box, required: bool, value: string,
    placeholder: string, prefill: bool, prompt: string, key: string)

  datatype Signer = Signer(id: int, name: string, email: string, role: string, order: int, consumer: bool, auth: string)
  datatype Field = Field(owner: Option<int>, content: Content)
  datatype Agreement = Agreement(signers: seq<Signer>, fields: seq<Field>)

  datatype RoleRow = RoleRow(name: string, email: string, role: string, order: int, consumer: bool, auth: string)
  datatype FieldRow = FieldRow(signer: nat, content: Content)
  datatype Template = Template(signers: seq<RoleRow>, fields: seq<FieldRow>)

  /** What the caller may supply for one signer; `consumer` is None when not given. */
  datatype Recipient = Recipient(name: string, email: string, role: string, consumer: Option<bool>, auth: string)

  const NOBODY := Recipient("", "", "", None, "")
  const BLANK := RoleRow("", "", "signer", 0, false, "email")

  /** Python's `a or b` on texts. */
  function Or(a: string, b: string): string {
    if a != "" then a else b
  }

  function OrderOr(order: int, i: nat): int {
    if order != 0 then order else i + 1
  }

  // Saving

  function SnapSigner(s: Signer, i: nat): RoleRow {
    RoleRow(s.name, s.email, Or(s.role, "signer"), OrderOr(s.order, i), s.consumer, Or(s.auth, "email"))
  }

  /** The last of the first `n` signers with that id. */
  function IndexOf(signers: seq<Signer>, n: nat, id: int): (r: Option<nat>)
    requires n <= |signers|
    ensures r.Some? ==> r.value < n && signers[r.value].id == id
    ensures r.None? ==> forall i :: 0 <= i < n ==> signers[i].id != id
  {
    if n == 0 then None
    else if signers[n - 1].id == id then Some(n - 1)
    else IndexOf(signers, n - 1, id)
  }

  /** The saved index of a field's owner: the first signer, if the owner is nobody listed. */
  function OwnerIndex(a: Agreement, owner: Option<int>): nat {
    if owner.None? then 0
    else
      var i := IndexOf(a.signers, |a.signers|, owner.value);
      if i.Some? then i.value else 0
  }

  function WithKind(c: Content): Content {
    c.(kind := Or(c.kind, "text"))
  }

  function SnapField(a: Agreement, f: Field): FieldRow {
    FieldRow(OwnerIndex(a, f.owner), WithKind(f.content))
  }

  function Saved(a: Agreement): Template {
    Template(seq(|a.signers|, i requires 0 <= i < |a.signers| => SnapSigner(a.signers[i], i)),
             seq(|a.fields|, k requires 0 <= k < |a.fields| => SnapField(a, a.fields[k])))
  }

  method SnapshotSigners(a: Agreement) returns (rows: seq<RoleRow>, index: map<int, nat>)
    ensures rows == Saved(a).signers
    ensures forall id :: Lookup(index, id) == IndexOf(a.signers, |a.signers|, id)
  {
    rows, index := [], map[];
    for i := 0 to |a.signers|
      invariant |rows| == i && forall j :: 0 <= j < i ==> rows[j] == SnapSigner(a.signers[j], j)
      invariant forall id :: Lookup(index, id) == IndexOf(a.signers, i, id)
    {
      var s := a.signers[i];
      index := index[s.id := i];
      rows := rows + [SnapSigner(s, i)];
    }
  }

  function Lookup(index: map<int, nat>, id: int): Option<nat> {
    if id in index then Some(index[id]) else None
  }

  method CreateTemplate(a: Agreement) returns (t: Template)
    ensures t == Saved(a)
  {
    var rows, index := SnapshotSigners(a);
    var fields: seq<FieldRow> := [];
    for k := 0 to |a.fields|
      invariant |fields| == k && forall j :: 0 <= j < k ==> fields[j] == SnapField(a, a.fields[j])
    {
      var f := a.fields[k];
      var at := if f.owner.None? then None else Lookup(index, f.owner.value);
      fields := fields + [FieldRow(if at.Some? then at.value else 0, WithKind(f.content))];
    }
    return Template(rows, fields);
  }

  // Making a draft

  const AUTHS := ["email", "email_otp", "access_code"]

  /** How `set_signers` stores a row; `norm` strips and lowers. */
  function StoredAuth(norm: string -> string, auth: string): string {
    if norm(Or(auth, "email")) in AUTHS then norm(Or(auth, "email")) else "email"
  }

  function Resolved(t: Template, recipients: seq<Recipient>, i: nat): RoleRow {
    var base := if i < |t.signers| then t.signers[i] else BLANK;
    var rec := if i < |recipients| then recipients[i] else NOBODY;
    RoleRow(Or(rec.name, base.name), Or(rec.email, base.email), Or(Or(rec.role, base.role), "signer"),
            OrderOr(base.order, i), if rec.consumer.Some? then rec.consumer.value else base.consumer,
            Or(Or(rec.auth, base.auth), "email"))
  }

  function Stored(norm: string -> string, r: RoleRow, id: int): Signer {
    Signer(id, r.name, norm(r.email), r.role, r.order, r.consumer, StoredAuth(norm, r.auth))
  }

  /** An unknown method of authentication falls back on email, and so does none. */
  lemma StoredAuthIsKnown(norm: string -> string, auth: string)
    ensures StoredAuth(norm, auth) in AUTHS
    ensures auth != "" ==> StoredAuth(norm, auth) == if norm(auth) in AUTHS then norm(auth) else "email"
    ensures auth == "" && norm("email") == "email" ==> StoredAuth(norm, auth) == "email"
  {
    assert AUTHS[0] == "email";
  }

  function Max(a: nat, b: nat): nat {
    if a < b then b else a
  }

  /** The value a field starts with: an answer to its key, else one to its position, else the
      template's; answers go to prefill fields only. */
  function Value(c: Content, i: nat, answers: map<string, string>): string {
    if !c.prefill then c.value
    else if c.key != "" && c.key in answers then answers[c.key]
    else if Csv.Decimal(i) in answers then answers[Csv.Decimal(i)]
    else c.value
  }

  function DraftSigner(norm: string -> string, t: Template, recipients: seq<Recipient>, next: int, i: nat): Signer {
    Stored(norm, Resolved(t, recipients, i), next + i)
  }

  function DraftField(t: Template, n: nat, answers: map<string, string>, next: int, k: nat): Field
    requires k < |t.fields|
  {
    var f := t.fields[k];
    Field(if f.signer < n then Some(next + f.signer) else None, WithKind(f.content.(value := Value(f.content, k, answers))))
  }

  function Draft(norm: string -> string, t: Template, recipients: seq<Recipient>, answers: map<string, string>, next: int): Agreement {
    var n := Max(|t.signers|, |recipients|);
    Agreement(seq(n, i requires 0 <= i < n => DraftSigner(norm, t, recipients, next, i)),
              seq(|t.fields|, k requires 0 <= k < |t.fields| => DraftField(t, n, answers, next, k)))
  }

  method SetSigners(norm: string -> string, rows: seq<RoleRow>, next: int) returns (signers: seq<Signer>)
    ensures |signers| == |rows| && forall i :: 0 <= i < |rows| ==> signers[i] == Stored(norm, rows[i], next + i)
  {
    signers := [];
    for i := 0 to |rows|
      invariant |signers| == i && forall j :: 0 <= j < i ==> signers[j] == Stored(norm, rows[j], next + j)
    {
      signers := signers + [Stored(norm, rows[i], next + i)];
    }
  }

  method FillFields(t: Template, ids: seq<int>, answers: map<string, string>, next: int) returns (fields: seq<Field>)
    requires forall i :: 0 <= i < |ids| ==> ids[i] == next + i
    ensures |fields| == |t.fields| && forall k :: 0 <= k < |fields| ==> fields[k] == DraftField(t, |ids|, answers, next, k)
  {
    fields := [];
    for k := 0 to |t.fields|
      invariant |fields| == k && forall j :: 0 <= j < k ==> fields[j] == DraftField(t, |ids|, answers, next, j)
    {
      var f := t.fields[k];
      var value := f.content.value;
      if f.content.prefill {
        if f.content.key != "" && f.content.key in answers {
          value := answers[f.content.key];
        } else if Csv.Decimal(k) in answers {
          value := answers[Csv.Decimal(k)];
        }
      }
      var owner := if f.signer < |ids| then Some(ids[f.signer]) else None;
      fields := fields + [Field(owner, WithKind(f.content.(value := value)))];
    }
  }

  /** `next` is the first signer id not yet used. */
  method Instantiate(norm: string -> string, t: Template, recipients: seq<Recipient>, answers: map<string, string>, next: int)
    returns (a: Agreement)
    ensures a == Draft(norm, t, recipients, answers, next)
  {
    var n := Max(|t.signers|, |recipients|);
    var rows: seq<RoleRow> := [];
    for i := 0 to n
      invariant |rows| == i && forall j :: 0 <= j < i ==> rows[j] == Resolved(t, recipients, j)
    {
      rows := rows + [Resolved(t, recipients, i)];
    }
    var signers := SetSigners(norm, rows, next);
    var ids := MapSeq(signers, (s: Signer) => s.id);
    var fields := FillFields(t, ids, answers, next);
    assert signers == Draft(norm, t, recipients, answers, next).signers;
    return Agreement(signers, fields);
  }

  // The round trip

  predicate Distinct(a: Agreement) {
    forall i, j :: 0 <= i < j < |a.signers| ==> a.signers[i].id != a.signers[j].id
  }

  /** The agreement's signers are as `set_signers` stores them. */
  ghost predicate AsStored(norm: string -> string, a: Agreement) {
    && Distinct(a)
    && (forall x :: x in AUTHS ==> norm(x) == x)
    && forall i :: 0 <= i < |a.signers| ==> norm(a.signers[i].email) == a.signers[i].email && a.signers[i].auth in AUTHS
  }

  function Copy(norm: string -> string, a: Agreement, next: int): Agreement {
    Draft(norm, Saved(a), [], map[], next)
  }

  /** The copy has as many signers, in order, and a signer comes back as it was but for its id
      exactly when it has a role and a nonzero order; those two defaults are all that change. */
  lemma SignersComeBack(norm: string -> string, a: Agreement, next: int, i: nat)
    requires AsStored(norm, a) && i < |a.signers|
    ensures |Copy(norm, a, next).signers| == |a.signers|
    ensures var s, d := a.signers[i], Copy(norm, a, next).signers[i];
            && d.id == next + i
            && (d.(id := s.id) == s <==> s.role != "" && s.order != 0)
            && d.(id := s.id, role := s.role, order := s.order) == s
  {
    assert a.signers[i].auth in AUTHS;
  }

  /** A field comes back as it was but for its owner exactly when it has a type. */
  lemma FieldsComeBack(norm: string -> string, a: Agreement, next: int, k: nat)
    requires k < |a.fields|
    ensures |Copy(norm, a, next).fields| == |a.fields|
    ensures var f, g := a.fields[k].content, Copy(norm, a, next).fields[k].content;
            (g == f <==> f.kind != "") && g.(kind := f.kind) == f
  {
  }

  predicate Listed(a: Agreement, owner: Option<int>) {
    exists i :: 0 <= i < |a.signers| && owner == Some(a.signers[i].id)
  }

  /** The copied field belongs to the copy of its original signer, or both to nobody. */
  predicate SameOwner(a: Agreement, f: Field, d: Agreement, g: Field) {
    || (f.owner == None && g.owner == None)
    || exists i :: 0 <= i < |a.signers| && i < |d.signers| && f.owner == Some(a.signers[i].id) && g.owner == Some(d.signers[i].id)
  }

  predicate Renumbered(a: Agreement, d: Agreement, next: int) {
    |d.signers| == |a.signers| && forall i :: 0 <= i < |d.signers| ==> d.signers[i].id == next + i
  }

  lemma OwnerKept(a: Agreement, f: Field, d: Agreement, g: Field, next: int)
    requires Distinct(a) && Renumbered(a, d, next)
    requires g.owner == if OwnerIndex(a, f.owner) < |a.signers| then Some(next + OwnerIndex(a, f.owner)) else None
    ensures SameOwner(a, f, d, g) <==> Listed(a, f.owner) || (f.owner == None && a.signers == [])
  {
    if Listed(a, f.owner) {
      var at := OwnerIndex(a, f.owner);
      assert a.signers[at].id == f.owner.value && d.signers[at].id == next + at;
    }
  }

  /** Ownership survives exactly for fields whose signer is on the agreement, and for fields of
      nobody when there are no signers; any other field goes to the first signer. */
  lemma OwnersComeBack(norm: string -> string, a: Agreement, next: int, k: nat)
    requires AsStored(norm, a) && k < |a.fields|
    ensures var d := Copy(norm, a, next);
            && k < |d.fields|
            && (SameOwner(a, a.fields[k], d, d.fields[k])
                <==> Listed(a, a.fields[k].owner) || (a.fields[k].owner == None && a.signers == []))
            && (!Listed(a, a.fields[k].owner) && a.signers != [] ==> d.fields[k].owner == Some(next))
  {
    OwnerKept(a, a.fields[k], Copy(norm, a, next), Copy(norm, a, next).fields[k], next);
  }

  /** The agreement itself, but for the new ids: a field whose owner is not listed has none. */
  function Reissued(a: Agreement, next: int): Agreement {
    Agreement(
      seq(|a.signers|, i requires 0 <= i < |a.signers| => a.signers[i].(id := next + i)),
      seq(|a.fields|, k requires 0 <= k < |a.fields| => a.fields[k].(owner := ReissuedOwner(a, a.fields[k].owner, next))))
  }

  function ReissuedOwner(a: Agreement, owner: Option<int>, next: int): Option<int> {
    if Listed(a, owner) then Some(next + OwnerIndex(a, owner)) else None
  }

  predicate SignerFilled(s: Signer) {
    s.role != "" && s.order != 0
  }

  predicate FieldFilled(a: Agreement, f: Field) {
    f.content.kind != "" && (Listed(a, f.owner) || a.signers == [])
  }

  lemma CopiedField(norm: string -> string, a: Agreement, next: int, k: nat)
    requires k < |a.fields|
    ensures |Copy(norm, a, next).fields| == |a.fields| == |Reissued(a, next).fields|
    ensures Copy(norm, a, next).fields[k] == Reissued(a, next).fields[k] <==> FieldFilled(a, a.fields[k])
  {
    var f, g := Copy(norm, a, next).fields[k], Reissued(a, next).fields[k];
    FieldsComeBack(norm, a, next, k);
  }

  lemma CopiedSigner(norm: string -> string, a: Agreement, next: int, i: nat)
    requires AsStored(norm, a) && i < |a.signers|
    ensures |Copy(norm, a, next).signers| == |a.signers| == |Reissued(a, next).signers|
    ensures Copy(norm, a, next).signers[i] == Reissued(a, next).signers[i] <==> SignerFilled(a.signers[i])
  {
    SignersComeBack(norm, a, next, i);
  }

  /** The whole agreement comes back, but for ids, exactly when every signer has a role and a
      nonzero order and every field a type and, if there are signers, one of them as its owner. */
  lemma TemplateRoundTrip(norm: string -> string, a: Agreement, next: int)
    requires AsStored(norm, a)
    ensures Copy(norm, a, next) == Reissued(a, next)
       <==> (forall i :: 0 <= i < |a.signers| ==> SignerFilled(a.signers[i]))
            && (forall k :: 0 <= k < |a.fields| ==> FieldFilled(a, a.fields[k]))
  {
    var c, d := Copy(norm, a, next), Reissued(a, next);
    forall i | 0 <= i < |a.signers|
      ensures |c.signers| == |d.signers| == |a.signers| && (c.signers[i] == d.signers[i] <==> SignerFilled(a.signers[i]))
    {
      CopiedSigner(norm, a, next, i);
    }
    forall k | 0 <= k < |a.fields|
      ensures |c.fields| == |d.fields| == |a.fields| && (c.fields[k] == d.fields[k] <==> FieldFilled(a, a.fields[k]))
    {
      CopiedField(norm, a, next, k);
    }
  }

  /** The template with what the recipients say written over it: a text where one is given, the
      consumer flag where it is given, and rows for recipients it has no signer for. */
  function Overwritten(t: Template, recipients: seq<Recipient>): (o: Template)
    ensures |o.signers| == Max(|t.signers|, |recipients|)
  {
    t.(signers := seq(Max(|t.signers|, |recipients|), i requires 0 <= i < Max(|t.signers|, |recipients|) =>
      OverwrittenRow(if i < |t.signers| then t.signers[i] else BLANK, if i < |recipients| then recipients[i] else NOBODY)))
  }

  function OverwrittenRow(row: RoleRow, rec: Recipient): RoleRow {
    row.(name := if rec.name == "" then row.name else rec.name,
         email := if rec.email == "" then row.email else rec.email,
         role := if rec.role == "" then row.role else rec.role,
         auth := if rec.auth == "" then row.auth else rec.auth,
         consumer := match rec.consumer case None => row.consumer case Some(given) => given)
  }

  lemma RecipientOverwrites(t: Template, recipients: seq<Recipient>, i: nat)
    requires i < Max(|t.signers|, |recipients|)
    ensures Resolved(t, recipients, i) == Resolved(Overwritten(t, recipients), [], i)
  {
  }

  /** Naming recipients is the same as writing them into the template first. */
  lemma RecipientsOverwriteTheTemplate(norm: string -> string, t: Template, recipients: seq<Recipient>, answers: map<string, string>, next: int)
    ensures Draft(norm, t, recipients, answers, next) == Draft(norm, Overwritten(t, recipients), [], answers, next)
  {
    var o, n := Overwritten(t, recipients), Max(|t.signers|, |recipients|);
    var a, b := Draft(norm, t, recipients, answers, next), Draft(norm, o, [], answers, next);
    forall i | 0 <= i < n
      ensures a.signers[i] == b.signers[i]
    {
      RecipientOverwrites(t, recipients, i);
    }
    assert a.signers == b.signers && a.fields == b.fields;
  }

  /** An answer to `x`, beside `answers`, is the one that field `k` takes: its key wins over its
      position. */
  predicate Takes(c: Content, k: nat, answers: map<string, string>, x: string) {
    c.prefill && (if c.key != "" && (c.key == x || c.key in answers) then c.key == x else Csv.Decimal(k) == x)
  }

  /** One more answer sets the value of exactly the prefill fields that take it, and changes
      nothing else of the draft. */
  lemma AnswerGoesWhereItIsTaken(norm: string -> string, t: Template, recipients: seq<Recipient>, answers: map<string, string>, next: int, x: string, v: string)
    ensures var d, e := Draft(norm, t, recipients, answers, next), Draft(norm, t, recipients, answers[x := v], next);
            && e.signers == d.signers && |e.fields| == |d.fields| == |t.fields|
            && forall k :: 0 <= k < |d.fields| ==>
                 e.fields[k] == if Takes(t.fields[k].content, k, answers, x)
                                then d.fields[k].(content := d.fields[k].content.(value := v)) else d.fields[k]
  {
    var d, e := Draft(norm, t, recipients, answers, next), Draft(norm, t, recipients, answers[x := v], next);
    assert e.signers == d.signers;
  }

  // Answering a questionnaire by position

  /** Answers to the positions of the first `n` fields' prefill fields. */
  function ByPosition(t: Template, values: seq<string>, n: nat): map<string, string>
    requires n <= |t.fields| == |values|
  {
    if n == 0 then map[]
    else
      var before := ByPosition(t, values, n - 1);
      if t.fields[n - 1].content.prefill then before[Csv.Decimal(n - 1) := values[n - 1]] else before
  }

  lemma DecimalsDiffer(i: nat, j: nat)
    requires Csv.Decimal(i) == Csv.Decimal(j)
    ensures i == j
  {
    Csv.ParseDecimalInverts(i);
    Csv.ParseDecimalInverts(j);
  }

  lemma {:induction false} AnswerAt(t: Template, values: seq<string>, n: nat, k: nat)
    requires n <= |t.fields| == |values|
    ensures var answers := ByPosition(t, values, n);
            && (Csv.Decimal(k) in answers <==> k < n && t.fields[k].content.prefill)
            && (Csv.Decimal(k) in answers ==> answers[Csv.Decimal(k)] == values[k])
  {
    if n > 0 {
      AnswerAt(t, values, n - 1, k);
      if Csv.Decimal(k) == Csv.Decimal(n - 1) {
        DecimalsDiffer(k, n - 1);
      }
    }
  }

  lemma {:induction false} AnswersArePositions(t: Template, values: seq<string>, n: nat, key: string)
    requires n <= |t.fields| == |values| && key in ByPosition(t, values, n)
    ensures exists j :: 0 <= j < n && t.fields[j].content.prefill && key == Csv.Decimal(j)
  {
    if !(t.fields[n - 1].content.prefill && key == Csv.Decimal(n - 1)) {
      AnswersArePositions(t, values, n - 1, key);
    }
  }

  /** The key of prefill field `k` reads as the position of another prefill field. */
  predicate Hijacked(t: Template, k: nat)
    requires k < |t.fields|
  {
    t.fields[k].content.prefill && exists j :: 0 <= j < |t.fields| && j != k && t.fields[j].content.prefill
                                               && t.fields[k].content.key == Csv.Decimal(j)
  }

  predicate Reached(t: Template, values: seq<string>, k: nat)
    requires k < |t.fields| == |values|
  {
    t.fields[k].content.prefill ==> Value(t.fields[k].content, k, ByPosition(t, values, |values|)) == values[k]
  }

  lemma NotHijackedIsReached(t: Template, values: seq<string>, k: nat)
    requires k < |t.fields| == |values| && !Hijacked(t, k)
    ensures Reached(t, values, k)
  {
    var key := t.fields[k].content.key;
    AnswerAt(t, values, |values|, k);
    if t.fields[k].content.prefill && key in ByPosition(t, values, |values|) {
      AnswersArePositions(t, values, |values|, key);
    }
  }

  lemma HijackedIsMissed(t: Template, k: nat) returns (values: seq<string>)
    requires k < |t.fields| && Hijacked(t, k)
    ensures |values| == |t.fields| && !Reached(t, values, k)
  {
    var j :| 0 <= j < |t.fields| && j != k && t.fields[j].content.prefill && t.fields[k].content.key == Csv.Decimal(j);
    values := seq(|t.fields|, i requires 0 <= i < |t.fields| => if i == k then "mine" else "other");
    AnswerAt(t, values, |values|, j);
  }

  /** Since a key wins over a position, answers given by position reach the fields they are
      meant for, whatever they are, exactly when no prefill field's key reads as the position
      of another. */
  lemma PositionsReachTheirFieldsIffNoKeyReadsAsOne(t: Template)
    ensures (forall values: seq<string>, k :: |values| == |t.fields| && 0 <= k < |t.fields| ==> Reached(t, values, k))
       <==> forall k :: 0 <= k < |t.fields| ==> !Hijacked(t, k)
  {
    forall k | 0 <= k < |t.fields| && Hijacked(t, k)
      ensures exists values: seq<string> :: |values| == |t.fields| && !Reached(t, values, k)
    {
      var values := HijackedIsMissed(t, k);
    }
    forall values: seq<string>, k | |values| == |t.fields| && 0 <= k < |t.fields| && !Hijacked(t, k)
      ensures Reached(t, values, k)
    {
      NotHijackedIsReached(t, values, k);
    }
  }

  /** A position names one field only: answering it leaves fields at other positions alone,
      unless the position happens to be their key. */
  lemma PositionNamesOneField(norm: string -> string, t: Template, recipients: seq<Recipient>, answers: map<string, string>, next: int, i: nat, k: nat, v: string)
    requires k < |t.fields| && i != k && t.fields[k].content.key != Csv.Decimal(i)
    ensures Draft(norm, t, recipients, answers[Csv.Decimal(i) := v], next).fields[k] == Draft(norm, t, recipients, answers, next).fields[k]
  {
    Csv.ParseDecimalInverts(i);
    Csv.ParseDecimalInverts(k);
  }
}
