/** Envelope sessions (sign/esign_access.py, sign/routers/envelope.py): who is let back in to
    an envelope, over every run of the handlers. A handler is one step; a session token is an
    unforgeable value, so a caller can only present one that was issued. */
module Sessions {
  import opened Basics

  const TTL := 1800.0

  /** `locked`: a challenge is set. `passed`: the marker that it was answered. */
  datatype Party = Party(id: nat, email: string, locked: bool, passed: bool)
  datatype Envelope = Envelope(epoch: nat, voided: bool, parties: seq<Party>)
  datatype Token = Token(env: string, signer: nat, email: string, open: bool, epoch: nat, expires: real)
  datatype World = World(envs: map<string, Envelope>, nextId: nat, issued: set<Token>)

  datatype Act =
    | SetSigners(env: string, emails: seq<string>)
    | Identify(env: string, email: string, now: real)
    | Answer(path: string, token: Token, correct: bool, now: real)
    | AnswerOnPage(env: string, signer: nat, correct: bool)
    | Switch(path: string, token: Token, target: string, now: real)
    | SetChallenge(env: string, signer: nat, some: bool)
    | Bump(env: string)
    | Void(env: string)
    | OtherStatus(env: string)

  function Find(parties: seq<Party>, id: nat): (r: Option<Party>)
    ensures r.Some? ==> r.value in parties && r.value.id == id
    ensures r.None? ==> forall p :: p in parties ==> p.id != id
  {
    if parties == [] then None
    else if parties[0].id == id then Some(parties[0])
    else Find(parties[1..], id)
  }

  /** The first signer with that address; no address matches nobody. */
  function MatchEmail(parties: seq<Party>, email: string): (r: Option<Party>)
    ensures r.Some? ==> r.value in parties && r.value.email == email && email != ""
  {
    if parties == [] || email == "" then None
    else if parties[0].email == email then Some(parties[0])
    else MatchEmail(parties[1..], email)
  }

  datatype Verdict = Denied | Closed | Admitted(party: Party)

  /** `require_env_session`. */
  function Guard(envs: map<string, Envelope>, path: string, t: Token, now: real): Verdict {
    if t.expires < now || t.env !in envs || t.env != path then Denied
    else
      var e := envs[t.env];
      var p := Find(e.parties, t.signer);
      if p.None? || t.epoch != e.epoch then Denied
      else if e.voided then Closed
      else Admitted(p.value)
  }

  /** The envelope's content is given out on this session. */
  predicate Served(w: World, path: string, t: Token, now: real) {
    var v := Guard(w.envs, path, t, now);
    t in w.issued && v.Admitted? && (!v.party.locked || t.open)
  }

  function UpdateParty(parties: seq<Party>, id: nat, locked: bool, passed: bool): (r: seq<Party>)
    ensures |r| == |parties|
    ensures forall i :: 0 <= i < |r| ==> r[i] == if parties[i].id == id then parties[i].(locked := locked, passed := passed) else parties[i]
  {
    MapSeq(parties, (p: Party) => if p.id == id then p.(locked := locked, passed := passed) else p)
  }

  function Mint(env: string, e: Envelope, signer: nat, email: string, open: bool, now: real): Token {
    Token(env, signer, email, open, e.epoch, now + TTL)
  }

  function SetParties(w: World, env: string, parties: seq<Party>): World
    requires env in w.envs
  {
    w.(envs := w.envs[env := w.envs[env].(parties := parties)])
  }

  /** `verify_challenge`: a correct answer can only be one to a challenge that is set. */
  predicate Answers(w: World, env: string, signer: nat, correct: bool) {
    && env in w.envs
    && var p := Find(w.envs[env].parties, signer);
    correct && p.Some? && p.value.locked
  }

  function Passes(w: World, env: string, signer: nat, correct: bool): World {
    if !Answers(w, env, signer, correct) then w
    else SetParties(w, env, UpdateParty(w.envs[env].parties, signer, true, true))
  }

  function FreshParties(emails: seq<string>, next: nat): (r: seq<Party>)
    ensures |r| == |emails| && forall i :: 0 <= i < |r| ==> r[i] == Party(next + i, emails[i], false, false)
  {
    seq(|emails|, i requires 0 <= i < |emails| => Party(next + i, emails[i], false, false))
  }

  function SetSignersStep(w: World, env: string, emails: seq<string>): World {
    if env in w.envs then SetParties(w, env, FreshParties(emails, w.nextId)).(nextId := w.nextId + |emails|)
    else w.(envs := w.envs[env := Envelope(0, false, FreshParties(emails, w.nextId))], nextId := w.nextId + |emails|)
  }

  /** The emailed code or the Google sign-in proved `email`. */
  function IdentifyStep(w: World, env: string, email: string, now: real): (World, Option<Token>) {
    if env !in w.envs then (w, None)
    else
      var e := w.envs[env];
      match MatchEmail(e.parties, email)
      case None => (w, None)
      case Some(p) =>
        var t := Mint(env, e, p.id, email, !p.locked, now);
        (w.(issued := w.issued + {t}), Some(t))
  }

  function AnswerStep(w: World, path: string, t: Token, correct: bool, now: real): (World, Option<Token>) {
    if t !in w.issued || !Guard(w.envs, path, t, now).Admitted? then (w, None)
    else if !Answers(w, path, t.signer, correct) then (w, None)
    else
      var fresh' := Mint(path, w.envs[path], t.signer, t.email, true, now);
      (Passes(w, path, t.signer, correct).(issued := w.issued + {fresh'}), Some(fresh'))
  }

  function SwitchStep(w: World, path: string, t: Token, target: string, now: real): (World, Option<Token>) {
    if t !in w.issued || !Guard(w.envs, path, t, now).Admitted? || target !in w.envs then (w, None)
    else
      var e := w.envs[target];
      match MatchEmail(e.parties, t.email)
      case None => (w, None)
      case Some(m) =>
        var p := Find(e.parties, m.id);
        var fresh' := Mint(target, e, m.id, t.email, p.None? || !p.value.locked, now);
        (w.(issued := w.issued + {fresh'}), Some(fresh'))
  }

  function SetChallengeStep(w: World, env: string, signer: nat, some: bool): World {
    if env !in w.envs || Find(w.envs[env].parties, signer).None? then w
    else BumpStep(SetParties(w, env, UpdateParty(w.envs[env].parties, signer, some, false)), env)
  }

  function BumpStep(w: World, env: string): World {
    if env !in w.envs then w
    else w.(envs := w.envs[env := w.envs[env].(epoch := w.envs[env].epoch + 1)])
  }

  function StatusStep(w: World, env: string, voided: bool): World {
    if env !in w.envs then w
    else w.(envs := w.envs[env := w.envs[env].(voided := voided)])
  }

  function Next(w: World, a: Act): World {
    match a
    case SetSigners(env, emails) => SetSignersStep(w, env, emails)
    case Identify(env, email, now) => IdentifyStep(w, env, email, now).0
    case Answer(path, t, correct, now) => AnswerStep(w, path, t, correct, now).0
    case AnswerOnPage(env, signer, correct) => Passes(w, env, signer, correct)
    case Switch(path, t, target, now) => SwitchStep(w, path, t, target, now).0
    case SetChallenge(env, signer, some) => SetChallengeStep(w, env, signer, some)
    case Bump(env) => BumpStep(w, env)
    case Void(env) => BumpStep(StatusStep(w, env, true), env)
    case OtherStatus(env) => StatusStep(w, env, false)
  }

  function After(run: seq<Act>): World {
    if run == [] then World(map[], 0, {})
    else Next(After(run[..|run| - 1]), run[|run| - 1])
  }

  lemma AfterStep(run: seq<Act>, n: nat)
    requires 0 < n <= |run|
    ensures After(run[..n]) == Next(After(run[..n - 1]), run[n - 1])
  {
    assert run[..n][..n - 1] == run[..n - 1];
  }

  // Revocation

  function EpochOf(w: World, env: string): int {
    if env in w.envs then w.envs[env].epoch else -1
  }

  /** The steps that end every session of `env`. */
  predicate Revokes(w: World, a: Act, env: string) {
    && env in w.envs
    && match a
       case Void(x) => x == env
       case Bump(x) => x == env
       case SetChallenge(x, signer, _) => x == env && Find(w.envs[env].parties, signer).Some?
       case _ => false
  }

  lemma EpochGrows(w: World, a: Act, env: string)
    ensures EpochOf(Next(w, a), env) >= EpochOf(w, env)
    ensures Revokes(w, a, env) ==> EpochOf(Next(w, a), env) > EpochOf(w, env)
  {
  }

  ghost predicate IssuedUpToEpoch(w: World) {
    forall t :: t in w.issued ==> t.epoch <= EpochOf(w, t.env)
  }

  lemma {:induction false} EpochsKept(run: seq<Act>, n: nat)
    requires n <= |run|
    ensures IssuedUpToEpoch(After(run[..n]))
  {
    if n > 0 {
      EpochsKept(run, n - 1);
      AfterStep(run, n);
      var w, a := After(run[..n - 1]), run[n - 1];
      forall t | t in Next(w, a).issued
        ensures t.epoch <= EpochOf(Next(w, a), t.env)
      {
        EpochGrows(w, a, t.env);
      }
    }
  }

  lemma {:induction false} EpochsGrow(run: seq<Act>, i: nat, n: nat, env: string)
    requires i <= n <= |run|
    ensures EpochOf(After(run[..n]), env) >= EpochOf(After(run[..i]), env)
  {
    if i < n {
      EpochsGrow(run, i, n - 1, env);
      AfterStep(run, n);
      EpochGrows(After(run[..n - 1]), run[n - 1], env);
    }
  }

  /** A session issued before a void, a challenge change or an epoch bump of its envelope is
      denied in every later state, on every path and at every time. */
  lemma RevokedForever(run: seq<Act>, i: nat, n: nat, t: Token, path: string, now: real)
    requires i < n <= |run| && t in After(run[..i]).issued && Revokes(After(run[..i]), run[i], t.env)
    ensures Guard(After(run[..n]).envs, path, t, now) == Denied
  {
    EpochsKept(run, i);
    AfterStep(run, i + 1);
    EpochGrows(After(run[..i]), run[i], t.env);
    EpochsGrow(run, i + 1, n, t.env);
  }

  // The challenge

  predicate Distinct(parties: seq<Party>) {
    forall i, j :: 0 <= i < j < |parties| ==> parties[i].id != parties[j].id
  }

  lemma {:induction false} FindUpdated(parties: seq<Party>, id: nat, locked: bool, passed: bool, other: nat)
    ensures Find(UpdateParty(parties, id, locked, passed), other)
         == match Find(parties, other)
            case None => None
            case Some(p) => Some(if p.id == id then p.(locked := locked, passed := passed) else p)
  {
    if parties != [] {
      FindUpdated(parties[1..], id, locked, passed, other);
      assert UpdateParty(parties, id, locked, passed)[1..] == UpdateParty(parties[1..], id, locked, passed);
    }
  }

  ghost predicate IdsFresh(w: World) {
    && (forall t :: t in w.issued ==> t.signer < w.nextId)
    && (forall env :: env in w.envs ==> Distinct(w.envs[env].parties) && Below(w.envs[env].parties, w.nextId))
  }

  predicate Below(parties: seq<Party>, next: nat) {
    forall i :: 0 <= i < |parties| ==> parties[i].id < next
  }

  lemma PutKeepsFresh(w: World, env: string, e: Envelope, next: nat)
    requires IdsFresh(w) && next >= w.nextId && Distinct(e.parties) && Below(e.parties, next)
    ensures IdsFresh(w.(envs := w.envs[env := e], nextId := next))
  {
  }

  lemma IssueKeepsFresh(w: World, t: Token)
    requires IdsFresh(w) && t.signer < w.nextId
    ensures IdsFresh(w.(issued := w.issued + {t}))
  {
  }

  lemma PassesKeepsFresh(w: World, env: string, signer: nat, correct: bool)
    requires IdsFresh(w)
    ensures IdsFresh(Passes(w, env, signer, correct))
  {
    if Answers(w, env, signer, correct) {
      var e := w.envs[env];
      PutKeepsFresh(w, env, e.(parties := UpdateParty(e.parties, signer, true, true)), w.nextId);
    }
  }

  lemma BumpKeepsFresh(w: World, env: string)
    requires IdsFresh(w)
    ensures IdsFresh(BumpStep(w, env))
  {
    if env in w.envs { PutKeepsFresh(w, env, w.envs[env].(epoch := w.envs[env].epoch + 1), w.nextId); }
  }

  lemma StatusKeepsFresh(w: World, env: string, voided: bool)
    requires IdsFresh(w)
    ensures IdsFresh(StatusStep(w, env, voided))
  {
    if env in w.envs { PutKeepsFresh(w, env, w.envs[env].(voided := voided), w.nextId); }
  }

  lemma ChallengeKeepsFresh(w: World, env: string, signer: nat, some: bool)
    requires IdsFresh(w)
    ensures IdsFresh(SetChallengeStep(w, env, signer, some))
  {
    if env in w.envs {
      var e := w.envs[env];
      var e' := e.(parties := UpdateParty(e.parties, signer, some, false));
      PutKeepsFresh(w, env, e', w.nextId);
      BumpKeepsFresh(w.(envs := w.envs[env := e'], nextId := w.nextId), env);
    }
  }

  lemma SignersKeepFresh(w: World, env: string, emails: seq<string>)
    requires IdsFresh(w)
    ensures IdsFresh(SetSignersStep(w, env, emails))
  {
    var parties, next := FreshParties(emails, w.nextId), w.nextId + |emails|;
    var e := if env in w.envs then w.envs[env].(parties := parties) else Envelope(0, false, parties);
    PutKeepsFresh(w, env, e, next);
  }

  lemma IdsFreshStep(w: World, a: Act)
    requires IdsFresh(w)
    ensures IdsFresh(Next(w, a))
  {
    match a
    case SetSigners(env, emails) => SignersKeepFresh(w, env, emails);
    case Identify(env, email, now) =>
      var t := IdentifyStep(w, env, email, now).1;
      if t.Some? { MatchIsFound(w, env, email); IssueKeepsFresh(w, t.value); }
    case Answer(path, t, correct, now) =>
      PassesKeepsFresh(w, path, t.signer, correct);
      var t' := AnswerStep(w, path, t, correct, now).1;
      if t'.Some? { IssueKeepsFresh(Passes(w, path, t.signer, correct), t'.value); }
    case AnswerOnPage(env, signer, correct) => PassesKeepsFresh(w, env, signer, correct);
    case Switch(path, t, target, now) =>
      var t' := SwitchStep(w, path, t, target, now).1;
      if t'.Some? { MatchIsFound(w, target, t.email); IssueKeepsFresh(w, t'.value); }
    case SetChallenge(env, signer, some) => ChallengeKeepsFresh(w, env, signer, some);
    case Bump(env) => BumpKeepsFresh(w, env);
    case Void(env) =>
      StatusKeepsFresh(w, env, true);
      BumpKeepsFresh(StatusStep(w, env, true), env);
    case OtherStatus(env) => StatusKeepsFresh(w, env, false);
  }

  /** What an issued session promises while its epoch is current. */
  predicate Sound(w: World, t: Token) {
    t.env in w.envs && t.epoch == w.envs[t.env].epoch ==>
      match Find(w.envs[t.env].parties, t.signer)
      case None => true
      case Some(p) => p.email == t.email && (t.open ==> !p.locked || p.passed)
  }

  ghost predicate AllSound(w: World) {
    IdsFresh(w) && IssuedUpToEpoch(w) && forall t :: t in w.issued ==> Sound(w, t)
  }

  /** What a session already issued promised, it still promises. */
  lemma OldStaySound(w: World, a: Act, t: Token)
    requires AllSound(w) && t in w.issued
    ensures Sound(Next(w, a), t)
  {
    match a
    case SetSigners(env, emails) =>
      if env == t.env && Find(FreshParties(emails, w.nextId), t.signer).Some? {
        assert false;
      }
    case Answer(path, s, correct, now) =>
      if path in w.envs { FindUpdated(w.envs[path].parties, s.signer, true, true, t.signer); }
    case AnswerOnPage(env, signer, correct) =>
      if env in w.envs { FindUpdated(w.envs[env].parties, signer, true, true, t.signer); }
    case SetChallenge(env, signer, some) =>
    case Identify(env, email, now) =>
    case Switch(path, s, target, now) =>
    case Bump(env) =>
    case Void(env) =>
    case OtherStatus(env) =>
  }

  lemma MatchIsFound(w: World, env: string, email: string)
    requires IdsFresh(w) && env in w.envs && MatchEmail(w.envs[env].parties, email).Some?
    ensures var p := MatchEmail(w.envs[env].parties, email); Find(w.envs[env].parties, p.value.id) == p
  {
    var ps, p := w.envs[env].parties, MatchEmail(w.envs[env].parties, email).value;
    var i :| 0 <= i < |ps| && ps[i] == p;
  }

  lemma NewAreSound(w: World, a: Act, t: Token)
    requires AllSound(w) && t in Next(w, a).issued && t !in w.issued
    ensures Sound(Next(w, a), t)
  {
    match a
    case Identify(env, email, now) => MatchIsFound(w, env, email);
    case Switch(path, s, target, now) => MatchIsFound(w, target, s.email);
    case Answer(path, s, correct, now) => FindUpdated(w.envs[path].parties, s.signer, true, true, s.signer);
    case _ => assert false;
  }

  lemma {:induction false} RunSound(run: seq<Act>, n: nat)
    requires n <= |run|
    ensures AllSound(After(run[..n]))
  {
    if n > 0 {
      RunSound(run, n - 1);
      EpochsKept(run, n);
      AfterStep(run, n);
      var w, a := After(run[..n - 1]), run[n - 1];
      IdsFreshStep(w, a);
      forall t | t in Next(w, a).issued
        ensures Sound(Next(w, a), t)
      {
        if t in w.issued { OldStaySound(w, a, t); } else { NewAreSound(w, a, t); }
      }
    }
  }

  /** An admitted session that says the challenge is met belongs to a signer who has none, or
      who has answered the one that is set; and it carries that signer's own address. */
  lemma OpenSessionMetTheChallenge(run: seq<Act>, path: string, t: Token, now: real)
    requires t in After(run).issued && Guard(After(run).envs, path, t, now).Admitted?
    ensures var p := Guard(After(run).envs, path, t, now).party;
            p.email == t.email && (t.open ==> !p.locked || p.passed)
  {
    assert run[..|run|] == run;
    RunSound(run, |run|);
  }

  // Where admission comes from

  /** Step `i` proved that whoever made it reads `email`. */
  predicate Proves(run: seq<Act>, i: nat, email: string)
    requires i < |run|
  {
    run[i].Identify? && run[i].email == email
  }

  lemma {:induction false} IssuedToProvenAddress(run: seq<Act>, n: nat, t: Token) returns (i: nat)
    requires n <= |run| && t in After(run[..n]).issued
    ensures i < n && Proves(run, i, t.email)
  {
    AfterStep(run, n);
    var w, a := After(run[..n - 1]), run[n - 1];
    if t in w.issued {
      i := IssuedToProvenAddress(run, n - 1, t);
    } else if a.Identify? {
      i := n - 1;
    } else {
      i := IssuedToProvenAddress(run, n - 1, a.token);
    }
  }

  /** Step `i` is a correct answer to the challenge then set for the signer. */
  predicate AnsweredAt(run: seq<Act>, i: nat, env: string, signer: nat)
    requires i < |run|
  {
    && Answers(After(run[..i]), env, signer, true)
    && match run[i]
       case Answer(path, t, correct, now) =>
         && path == env && t.signer == signer && correct
         && t in After(run[..i]).issued && Guard(After(run[..i]).envs, path, t, now).Admitted?
       case AnswerOnPage(x, s, correct) => x == env && s == signer && correct
       case _ => false
  }

  predicate ChangesChallenge(a: Act, env: string, signer: nat) {
    (a.SetChallenge? && a.env == env && a.signer == signer) || (a.SetSigners? && a.env == env)
  }

  function Marker(w: World, env: string, signer: nat): bool {
    env in w.envs && var p := Find(w.envs[env].parties, signer); p.Some? && p.value.passed
  }

  lemma FreshUnmarked(emails: seq<string>, next: nat, signer: nat)
    ensures var p := Find(FreshParties(emails, next), signer); p.None? || !p.value.passed
  {
  }

  lemma MarkerStep(w: World, a: Act, env: string, signer: nat)
    requires Marker(Next(w, a), env, signer)
    ensures !ChangesChallenge(a, env, signer)
    ensures Marker(w, env, signer) ||
            (Answers(w, env, signer, true) &&
             ((a.Answer? && a.path == env && a.token.signer == signer && a.correct
               && a.token in w.issued && Guard(w.envs, a.path, a.token, a.now).Admitted?)
              || (a.AnswerOnPage? && a.env == env && a.signer == signer && a.correct)))
  {
    match a
    case SetSigners(x, emails) => FreshUnmarked(emails, w.nextId, signer);
    case Answer(path, s, correct, now) =>
      if path in w.envs { FindUpdated(w.envs[path].parties, s.signer, true, true, signer); }
    case AnswerOnPage(x, s, correct) =>
      if x in w.envs { FindUpdated(w.envs[x].parties, s, true, true, signer); }
    case SetChallenge(x, s, some) =>
      if x in w.envs { FindUpdated(w.envs[x].parties, s, some, false, signer); }
    case _ =>
  }

  lemma MarkerComesFrom(run: seq<Act>, n: nat, env: string, signer: nat)
    requires 0 < n <= |run| && Marker(After(run[..n]), env, signer)
    ensures !ChangesChallenge(run[n - 1], env, signer)
    ensures Marker(After(run[..n - 1]), env, signer) || AnsweredAt(run, n - 1, env, signer)
  {
    AfterStep(run, n);
    MarkerStep(After(run[..n - 1]), run[n - 1], env, signer);
  }

  lemma MarkerStays(w: World, a: Act, env: string, signer: nat)
    requires Marker(w, env, signer) && !ChangesChallenge(a, env, signer)
    ensures Marker(Next(w, a), env, signer)
  {
    match a
    case Answer(path, s, correct, now) =>
      if path in w.envs { FindUpdated(w.envs[path].parties, s.signer, true, true, signer); }
    case AnswerOnPage(x, s, correct) =>
      if x in w.envs { FindUpdated(w.envs[x].parties, s, true, true, signer); }
    case SetChallenge(x, s, some) =>
      if x in w.envs { FindUpdated(w.envs[x].parties, s, some, false, signer); }
    case _ =>
  }

  lemma AnswerMarks(run: seq<Act>, i: nat, env: string, signer: nat)
    requires i < |run| && AnsweredAt(run, i, env, signer)
    ensures Marker(After(run[..i + 1]), env, signer)
  {
    AfterStep(run, i + 1);
    FindUpdated(After(run[..i]).envs[env].parties, signer, true, true, signer);
  }

  /** And a correct answer leaves the marker standing until the challenge is set anew. */
  lemma {:induction false} AnsweredMeansMarker(run: seq<Act>, i: nat, n: nat, env: string, signer: nat)
    requires i < n <= |run| && AnsweredAt(run, i, env, signer)
    requires forall k :: i < k < n ==> !ChangesChallenge(run[k], env, signer)
    ensures Marker(After(run[..n]), env, signer)
  {
    if n == i + 1 {
      AnswerMarks(run, i, env, signer);
    } else {
      AnsweredMeansMarker(run, i, n - 1, env, signer);
      AfterStep(run, n);
      MarkerStays(After(run[..n - 1]), run[n - 1], env, signer);
    }
  }

  /** The pass marker stands only on a correct answer since the challenge was last set. */
  lemma {:induction false} MarkerMeansAnswered(run: seq<Act>, n: nat, env: string, signer: nat) returns (i: nat)
    requires n <= |run| && Marker(After(run[..n]), env, signer)
    ensures i < n && AnsweredAt(run, i, env, signer)
    ensures forall k :: i <= k < n ==> !ChangesChallenge(run[k], env, signer)
  {
    MarkerComesFrom(run, n, env, signer);
    if Marker(After(run[..n - 1]), env, signer) {
      i := MarkerMeansAnswered(run, n - 1, env, signer);
    } else {
      i := n - 1;
    }
  }

  /** Whoever is served an envelope's content holds a session whose address was proved earlier
      in the run and is the signer's own, the envelope is not voided, and the signer's
      challenge, if there is one, was answered after it was last set. */
  lemma ServedOnlyAfterProofAndAnswer(run: seq<Act>, path: string, t: Token, now: real)
    requires Served(After(run), path, t, now)
    ensures var e := After(run).envs[path];
            !e.voided && Find(e.parties, t.signer).Some? && Find(e.parties, t.signer).value.email == t.email
    ensures exists i :: 0 <= i < |run| && Proves(run, i, t.email)
    ensures !Find(After(run).envs[path].parties, t.signer).value.locked
            || exists i :: 0 <= i < |run| && AnsweredAt(run, i, path, t.signer)
                           && forall k :: i <= k < |run| ==> !ChangesChallenge(run[k], path, t.signer)
  {
    assert run[..|run|] == run;
    OpenSessionMetTheChallenge(run, path, t, now);
    var i := IssuedToProvenAddress(run, |run|, t);
    if Find(After(run).envs[path].parties, t.signer).value.locked {
      var j := MarkerMeansAnswered(run, |run|, path, t.signer);
    }
  }
}
