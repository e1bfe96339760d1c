/** One agreement and the database transactions that change it (sign/esign.py). Each function
    here is one transaction, or one gate a transaction reads before it writes. */
module Envelope {
  import opened Basics
  import opened Records
  import Pages
  import Stamping

  const SEAL_STALE: real := 120.0
  const LINK_TTL: real := 5184000.0  // sixty days

  datatype Status =
    | Drafting | OutForSignature | Sealing
    | Completed | Voided | Cancelled | Declined | Expired

  /** The statuses a seal can never be claimed from. */
  predicate Terminal(s: Status) {
    s == Completed || s == Voided || s == Cancelled || s == Declined || s == Expired
  }

  datatype SignerStatus = Pending | Sent | Viewed | Signed | SignerDeclined

  datatype Signer = Signer(
    email: string, order: int, consumer: bool, token: Option<nat>, status: SignerStatus,
    viewed: bool, consentAt: Option<real>, withdrawn: bool, lockUnmet: bool)

  datatype EventKind =
    | EvEdited | EvSent | EvAuthenticated | EvFrozen | EvEmailed | EvSelfSign | EvViewed
    | EvConsent | EvFieldSigned | EvAdopted | EvSigned | EvWithdrawn | EvDeclined | EvExpired
    | EvSealed | EvCompleted | EvVoided | EvChallenge

  datatype Event = Event(kind: EventKind, signer: Option<nat>)

  /** The executed copy: the bytes it was stamped onto, and what was stamped. */
  datatype Executed = Executed(base: seq<Pages.CopyPage>, stamps: seq<Stamping.Stamp>)

  datatype Agreement = Agreement(
    status: Status, sealingAt: Option<real>, sequential: bool,
    createdAt: real, sentAt: Option<real>, expiresAt: Option<real>,
    doc: Pages.Draft, frozen: Option<seq<Pages.CopyPage>>, executed: Option<Executed>,
    signers: seq<Signer>, events: seq<Event>)

  function SetSigner(a: Agreement, i: nat, s: Signer): Agreement
    requires i < |a.signers|
  {
    a.(signers := a.signers[i := s])
  }

  function Log(a: Agreement, events: seq<Event>): Agreement {
    a.(events := a.events + events)
  }

  function By(kind: EventKind, i: nat): Event {
    Event(kind, Some(i))
  }

  function Of(kind: EventKind): Event {
    Event(kind, None)
  }

  /** `_presented_bytes`: the frozen snapshot when there is one, else the source. */
  function Presented(a: Agreement): seq<Pages.CopyPage> {
    if a.frozen.Some? then a.frozen.value else Pages.Flattened(a.doc.pages, {})
  }

  /** `int(sign_order or 1)`. */
  function Turn(s: Signer): int {
    if s.order == 0 then 1 else s.order
  }

  predicate AllSigned(signers: seq<Signer>) {
    forall i :: 0 <= i < |signers| ==> signers[i].status == Signed
  }

  // ---- draft ------------------------------------------------------------------------

  /** A signer row as `set_signers` inserts it. */
  predicate FreshSigner(s: Signer) {
    s.token == None && s.status == Pending && !s.viewed && s.consentAt == None && !s.withdrawn && !s.lockUnmet
  }

  function SetSigners(a: Agreement, signers: seq<Signer>): Agreement {
    if a.status != Drafting || !(forall s :: s in signers ==> FreshSigner(s)) then a
    else a.(signers := signers)
  }

  function SetFields(a: Agreement, fields: seq<Field>): Agreement {
    if a.status != Drafting then a else a.(doc := a.doc.(fields := fields))
  }

  function SetOrderMode(a: Agreement, sequential: bool): Agreement {
    if a.status != Drafting then a else a.(sequential := sequential)
  }

  function EditPages(a: Agreement, op: Pages.Op): Agreement {
    if a.status != Drafting then a
    else match Pages.Apply(a.doc, op)
      case None => a
      case Some(doc) => Log(a.(doc := doc), [Of(EvEdited)])
  }

  // ---- send -------------------------------------------------------------------------

  function SendTo(s: Signer, token: nat): Signer {
    s.(token := Some(token), status := Sent)
  }

  function Dispatched(signers: seq<Signer>, tokens: seq<nat>): (r: seq<Signer>)
    requires |tokens| == |signers|
    ensures |r| == |signers| && forall i :: 0 <= i < |signers| ==> r[i] == SendTo(signers[i], tokens[i])
  {
    seq(|signers|, i requires 0 <= i < |signers| => SendTo(signers[i], tokens[i]))
  }

  function SentEvents(n: nat): seq<Event> {
    if n == 0 then [] else SentEvents(n - 1) + [By(EvSent, n - 1), By(EvAuthenticated, n - 1)]
  }

  /** The single dispatch of a draft: freeze, mint every token, open for signature. */
  function Send(a: Agreement, tokens: seq<nat>, now: real): Option<Agreement>
    requires |tokens| == |a.signers|
  {
    if a.signers == [] || a.status != Drafting then None
    else match Pages.Freeze(a.doc)
      case None => None
      case Some(copy) =>
        var n := |a.signers|;
        Some(Log(a.(
          signers := Dispatched(a.signers, tokens),
          frozen := Some(copy), status := OutForSignature,
          sentAt := Some(now), expiresAt := Some(now + LINK_TTL)),
          SentEvents(n) + [Of(EvFrozen)]))
  }

  /** The owner signs without an invite: one token, and a draft is opened. */
  function SelfSign(a: Agreement, i: nat, token: nat, now: real): Option<Agreement> {
    if i >= |a.signers| || a.signers[i].status == Signed then None
    else
      var s := a.signers[i];
      var minted := SetSigner(a, i, s.(token := Some(if s.token.Some? then s.token.value else token)));
      var result := if a.status == Drafting
                    then minted.(status := OutForSignature, sentAt := Some(if a.sentAt.Some? then a.sentAt.value else now))
                    else minted;
      Some(Log(result, [By(EvSelfSign, i)]))
  }

  // ---- the signer's page ---------------------------------------------------------------

  predicate HoldsToken(a: Agreement, i: nat) {
    i < |a.signers| && a.signers[i].token.Some?
  }

  predicate LinkExpired(a: Agreement, now: real) {
    var start := if a.sentAt.Some? && a.sentAt.value != 0.0 then a.sentAt.value else a.createdAt;
    start > 0.0 && now - start > LINK_TTL
  }

  /** `signing_payload`: the first view stamps the signer, every view is logged. */
  function View(a: Agreement, i: nat, now: real): Option<Agreement> {
    if !HoldsToken(a, i) then None
    else
      var s := a.signers[i];
      if a.status == Voided || a.status == Cancelled || a.status == Declined then None
      else if s.status != Signed && a.status == Expired then None
      else if s.status != Signed && a.status != Completed && LinkExpired(a, now) then None
      else if s.status == Sent || s.status == Viewed then
        Some(Log(if s.viewed then a else SetSigner(a, i, s.(status := Viewed, viewed := true)), [By(EvViewed, i)]))
      else Some(a)
  }

  function RecordConsent(a: Agreement, i: nat, now: real): Option<Agreement> {
    if !HoldsToken(a, i) || a.signers[i].lockUnmet then None
    else if a.status == Voided || a.status == Cancelled || a.status == Declined then None
    else if a.signers[i].consentAt.Some? then Some(a)
    else Some(Log(SetSigner(a, i, a.signers[i].(consentAt := Some(now))), [By(EvConsent, i)]))
  }

  /** `withdraw_consent`: declines the signer and the envelope unless it is completed. */
  function Withdraw(a: Agreement, i: nat): Option<Agreement> {
    if !HoldsToken(a, i) || a.signers[i].lockUnmet then None
    else if a.signers[i].withdrawn then Some(a)
    else
      var s := a.signers[i].(withdrawn := true);
      if a.status == Completed then Some(Log(SetSigner(a, i, s), [By(EvWithdrawn, i)]))
      else Some(Log(
        SetSigner(a, i, s.(status := SignerDeclined)).(
          status := if a.status == Voided || a.status == Cancelled then a.status else Declined),
        [By(EvWithdrawn, i)]))
  }

  function Decline(a: Agreement, i: nat): Option<Agreement> {
    if !HoldsToken(a, i) || a.signers[i].lockUnmet || a.signers[i].status == Signed then None
    else if a.status == Completed || a.status == Voided || a.status == Cancelled then None
    else Some(Log(SetSigner(a, i, a.signers[i].(status := SignerDeclined)).(status := Declined), [By(EvDeclined, i)]))
  }

  /** `void`: no status guard. */
  function Void(a: Agreement): Agreement {
    Log(a.(status := Voided), [Of(EvVoided)])
  }

  function Sweep(a: Agreement, now: real): Agreement {
    if a.status == OutForSignature && a.expiresAt.Some? && a.expiresAt.value <= now
    then Log(a.(status := Expired), [Of(EvExpired)])
    else a
  }

  /** A sender sets or clears a signer's access lock, or the signer passes it. */
  function SetLock(a: Agreement, i: nat, unmet: bool): Agreement {
    if i >= |a.signers| then a
    else Log(SetSigner(a, i, a.signers[i].(lockUnmet := unmet)), [By(EvChallenge, i)])
  }

  // ---- submitting a signature -------------------------------------------------------------

  /** A key of the submitted values: the text or the number of a field id, another spelling
      that `int()` reads as one, or something that it does not. */
  datatype Key = Name(id: int) | Number(id: int) | Alias(spelling: string, id: int) | Junk(spelling: string)

  datatype Entry = Entry(key: Key, value: Value)

  /** A dictionary as submitted: entries in order, no key twice. */
  type Form = es: seq<Entry> | forall i, j :: 0 <= i < j < |es| ==> es[i].key != es[j].key

  predicate Names(k: Key, id: int) {
    !k.Junk? && k.id == id
  }

  function Find(form: seq<Entry>, k: Key): Option<Value> {
    if form == [] then None
    else if form[0].key == k then Some(form[0].value)
    else Find(form[1..], k)
  }

  /** `values.get(str(id))`, or else `values.get(id)`. */
  function Lookup(form: seq<Entry>, id: int): Option<Value> {
    var named := Find(form, Name(id));
    if named.Some? then named else Find(form, Number(id))
  }

  /** The test a required value has to pass. */
  predicate Accepts(kind: Kind, v: Value) {
    !v.blank && (kind == Signature || kind == Initials ==> v.image) && (kind == Checkbox ==> v.checked)
  }

  predicate RequiredOf(f: Field, i: nat) {
    f.owner == Some(i) && f.required
  }

  predicate FieldPasses(f: Field, form: seq<Entry>) {
    var v := Lookup(form, f.id);
    v.Some? && Accepts(f.kind, v.value)
  }

  predicate GatePasses(fields: seq<Field>, i: nat, form: seq<Entry>) {
    forall k :: 0 <= k < |fields| && RequiredOf(fields[k], i) ==> FieldPasses(fields[k], form)
  }

  /** The value that ends up stored for a field id: a later spelling replaces an earlier one. */
  function LastNamed(form: seq<Entry>, id: int): Option<Value> {
    if form == [] then None
    else
      var last := form[|form| - 1];
      if Names(last.key, id) then Some(last.value) else LastNamed(form[..|form| - 1], id)
  }

  function WriteValue(f: Field, i: nat, form: seq<Entry>): Field {
    var v := LastNamed(form, f.id);
    if f.owner == Some(i) && v.Some? then f.(value := v.value) else f
  }

  function WriteValues(fields: seq<Field>, i: nat, form: seq<Entry>): (r: seq<Field>)
    ensures |r| == |fields|
  {
    MapSeq(fields, (f: Field) => WriteValue(f, i, form))
  }

  function KindOf(fields: seq<Field>, id: int): Option<Kind> {
    if fields == [] then None
    else if fields[0].id == id then Some(fields[0].kind)
    else KindOf(fields[1..], id)
  }

  /** The field ids a form names, in the order they first appear. */
  function NamedIds(form: seq<Entry>): (ids: seq<int>) {
    if form == [] then []
    else
      var before := NamedIds(form[..|form| - 1]);
      var k := form[|form| - 1].key;
      if k.Junk? || k.id in before then before else before + [k.id]
  }

  /** Signature and initials fields log a signing each, and one adoption per distinct image. */
  function FieldEvents(fields: seq<Field>, ids: seq<int>, form: seq<Entry>, i: nat, adopted: set<string>): seq<Event> {
    if ids == [] then []
    else
      var kind, v := KindOf(fields, ids[0]), LastNamed(form, ids[0]);
      if (kind == Some(Signature) || kind == Some(Initials)) && v.Some? then
        if v.value.text != "" && v.value.text !in adopted
        then [By(EvFieldSigned, i), By(EvAdopted, i)] + FieldEvents(fields, ids[1..], form, i, adopted + {v.value.text})
        else [By(EvFieldSigned, i)] + FieldEvents(fields, ids[1..], form, i, adopted)
      else FieldEvents(fields, ids[1..], form, i, adopted)
  }

  /** Some signer with an earlier turn has not signed. */
  predicate EarlierUnsigned(signers: seq<Signer>, i: nat)
    requires i < |signers|
  {
    exists j :: 0 <= j < |signers| && Turn(signers[j]) < Turn(signers[i]) && signers[j].status != Signed
  }

  datatype Refusal =
    | ConsentRequired | InvalidLink | AccessVerification | NotAvailable | WindowElapsed | StaleLink
    | Withdrawn | NotYourTurn | ConsumerConsent | RequiredFields | MalformedValues

  datatype SubmitResult =
    | Refused(why: Refusal)
    | Already(recount: bool)
    | Recorded(next: Agreement)

  function SubmitGate(a: Agreement, i: nat, form: seq<Entry>, consent: bool, now: real): Option<Refusal> {
    if !consent then Some(ConsentRequired)
    else if !HoldsToken(a, i) then Some(InvalidLink)
    else if a.signers[i].lockUnmet then Some(AccessVerification)
    else if a.status == Voided || a.status == Cancelled || a.status == Declined then Some(NotAvailable)
    else if a.status == Expired then Some(WindowElapsed)
    else if a.status != Completed && LinkExpired(a, now) then Some(StaleLink)
    else if a.signers[i].withdrawn || a.signers[i].status == SignerDeclined then Some(Withdrawn)
    else if a.signers[i].status == Signed then None
    else if a.sequential && EarlierUnsigned(a.signers, i) then Some(NotYourTurn)
    else if a.signers[i].consumer && a.signers[i].consentAt.None? then Some(ConsumerConsent)
    else if !GatePasses(a.doc.fields, i, form) then Some(RequiredFields)
    else if exists e :: e in form && e.key.Junk? then Some(MalformedValues)
    else None
  }

  function Sign(a: Agreement, i: nat, form: seq<Entry>): Agreement
    requires i < |a.signers|
  {
    Log(SetSigner(a, i, a.signers[i].(status := Signed)).(
          doc := a.doc.(fields := WriteValues(a.doc.fields, i, form))),
        FieldEvents(a.doc.fields, NamedIds(form), form, i, {}) + [By(EvSigned, i)])
  }

  /** The check-and-write of `submit_signature`. `recount` says that an already signed signer's
      repeat goes on to count the unsigned ones and perhaps to finalize again. */
  function Submit(a: Agreement, i: nat, form: seq<Entry>, consent: bool, now: real): SubmitResult {
    var gate := SubmitGate(a, i, form, consent, now);
    if gate.Some? then Refused(gate.value)
    else if a.signers[i].status == Signed then Already(a.status != Completed)
    else Recorded(Sign(a, i, form))
  }

  /** A signer who has signed, or has withdrawn, can submit nothing more. */
  predicate Spent(s: Signer) {
    s.status == Signed || s.withdrawn
  }

  /** What a recorded submission has been through. */
  lemma SubmitAllowed(a: Agreement, i: nat, form: Form, consent: bool, now: real)
    requires Submit(a, i, form, consent, now).Recorded?
    ensures i < |a.signers| && a.signers[i].token.Some? && !Spent(a.signers[i])
    ensures a.sequential ==> !EarlierUnsigned(a.signers, i)
    ensures GatePasses(a.doc.fields, i, form)
    ensures Submit(a, i, form, consent, now).next == Sign(a, i, form)
  {
  }

  // ---- sealing ---------------------------------------------------------------------------

  predicate AnyLockUnmet(signers: seq<Signer>) {
    exists s :: s in signers && s.lockUnmet
  }

  /** The status a failed seal writes back, from the row `finalize` read before its claim. */
  function ReleaseTarget(read: Status): Status {
    if read == Sealing then OutForSignature else read
  }

  predicate Claimable(a: Agreement, at: real) {
    !Terminal(a.status) && (a.status != Sealing || a.sealingAt.None? || a.sealingAt.value < at - SEAL_STALE)
  }

  function Claim(a: Agreement, at: real): Option<Agreement> {
    if Claimable(a, at) then Some(a.(status := Sealing, sealingAt := Some(at))) else None
  }

  /** The fields handed to the stamp: those with a non-blank value. */
  function Handed(fields: seq<Field>): seq<Field> {
    Filter(fields, (f: Field) => !f.value.blank)
  }

  /** The copy made from the row that `finalize` read, on the presented bytes. */
  function ExecutedFrom(read: Agreement): Executed {
    var base := Presented(read);
    Executed(base, Stamping.Stamps(|base|, Handed(read.doc.fields)))
  }

  /** The final write of a seal: no status guard. */
  function Complete(a: Agreement, copy: Executed): Agreement {
    Log(a.(status := Completed, executed := Some(copy)), [Of(EvSealed), Of(EvCompleted)])
  }

  function Release(a: Agreement, target: Status): Agreement {
    if a.status == Sealing then a.(status := target) else a
  }

  // ---- whose turn it is --------------------------------------------------------------------

  /** `_next_order_to_notify`: the earliest turn among the unsigned. */
  function NextTurn(signers: seq<Signer>): Option<int> {
    if signers == [] then None
    else
      var rest := NextTurn(signers[1..]);
      if signers[0].status == Signed then rest
      else if rest.None? || Turn(signers[0]) <= rest.value then Some(Turn(signers[0]))
      else rest
  }

  /** The signers invited now: on `send` in sequential mode the first group, otherwise all;
      on the cascade the unsigned of the next group that hold a token. */
  predicate InvitedAtSend(a: Agreement, i: nat)
    requires i < |a.signers|
  {
    a.signers[i].email != "" && (a.sequential ==> NextTurn(a.signers) == Some(Turn(a.signers[i])))
  }

  predicate InvitedByCascade(a: Agreement, i: nat)
    requires i < |a.signers|
  {
    && a.sequential && a.status != Voided && a.status != Cancelled && a.status != Completed
    && NextTurn(a.signers) == Some(Turn(a.signers[i])) && a.signers[i].status != Signed
    && a.signers[i].email != "" && a.signers[i].token.Some?
  }
}
