/** Who is let in to an envelope: a session that was issued rightly serves its signer, in every
    later state, until it runs out, its envelope revokes it or the signers are replaced. */
module SessionProgress {
  import opened Basics
  import opened Sessions

  /** Steps `i` to `n - 1` neither revoke the sessions of `env` nor replace its signers. */
  predicate Undisturbed(run: seq<Act>, i: nat, n: nat, env: string)
    requires n <= |run|
  {
    forall k :: i <= k < n ==> !Revokes(After(run[..k]), run[k], env) && !(run[k].SetSigners? && run[k].env == env)
  }

  /** A session for a signer `p` of an envelope that is not voided, of its current epoch. */
  predicate Stands(w: World, t: Token, p: Party) {
    && t in w.issued && t.env in w.envs && !w.envs[t.env].voided && t.epoch == w.envs[t.env].epoch
    && var q := Find(w.envs[t.env].parties, t.signer);
       q.Some? && q.value.(passed := p.passed) == p
  }

  lemma PassesKeepsStanding(w: World, env: string, signer: nat, correct: bool, t: Token, p: Party)
    requires Stands(w, t, p)
    ensures Stands(Passes(w, env, signer, correct), t, p)
  {
    if env in w.envs {
      FindUpdated(w.envs[env].parties, signer, true, true, t.signer);
    }
  }

  lemma StepKeepsStanding(w: World, a: Act, t: Token, p: Party)
    requires Stands(w, t, p) && !Revokes(w, a, t.env) && !(a.SetSigners? && a.env == t.env)
    ensures Stands(Next(w, a), t, p)
  {
    match a
    case Answer(path, s, correct, now) => PassesKeepsStanding(w, path, s.signer, correct, t, p);
    case AnswerOnPage(env, signer, correct) => PassesKeepsStanding(w, env, signer, correct, t, p);
    case _ =>
  }

  lemma {:induction false} KeepsStanding(run: seq<Act>, i: nat, n: nat, t: Token, p: Party)
    requires i <= n <= |run| && Undisturbed(run, i, n, t.env) && Stands(After(run[..i]), t, p)
    ensures Stands(After(run[..n]), t, p)
  {
    if i < n {
      KeepsStanding(run, i, n - 1, t, p);
      AfterStep(run, n);
      StepKeepsStanding(After(run[..n - 1]), run[n - 1], t, p);
    }
  }

  /** Admitted exactly until it runs out, and served exactly if besides it is open or the signer
      has no challenge. */
  predicate LetIn(w: World, t: Token, p: Party, later: real) {
    && (Guard(w.envs, t.env, t, later).Admitted? <==> later <= t.expires)
    && (Served(w, t.env, t, later) <==> later <= t.expires && (t.open || !p.locked))
  }

  lemma StandingIsLetIn(w: World, t: Token, p: Party, later: real)
    requires Stands(w, t, p)
    ensures LetIn(w, t, p, later)
  {
  }

  /** A correct answer, on an admitted session, to the challenge that is set gives a session of
      the same signer that is served from then on, for half an hour. */
  lemma AnsweredIsServed(run: seq<Act>, i: nat, n: nat, later: real) returns (fresh': Token)
    requires i < n <= |run| && run[i].Answer? && run[i].correct && Undisturbed(run, i + 1, n, run[i].path)
    requires run[i].token in After(run[..i]).issued
    requires var v := Guard(After(run[..i]).envs, run[i].path, run[i].token, run[i].now); v.Admitted? && v.party.locked
    ensures AnswerStep(After(run[..i]), run[i].path, run[i].token, true, run[i].now).1 == Some(fresh')
    ensures fresh'.signer == run[i].token.signer && fresh'.email == run[i].token.email
    ensures Served(After(run[..n]), run[i].path, fresh', later) <==> later <= run[i].now + TTL
  {
    var w, t := After(run[..i]), run[i].token;
    var p := Guard(w.envs, run[i].path, t, run[i].now).party;
    fresh' := AnswerStep(w, run[i].path, t, true, run[i].now).1.value;
    AfterStep(run, i + 1);
    FindUpdated(w.envs[run[i].path].parties, t.signer, true, true, t.signer);
    assert Stands(After(run[..i + 1]), fresh', p);
    KeepsStanding(run, i + 1, n, fresh', p);
    StandingIsLetIn(After(run[..n]), fresh', p, later);
  }

  /** Place `k` holds the first signer with the address. */
  predicate FirstWith(parties: seq<Party>, email: string, k: nat) {
    email != "" && k < |parties| && parties[k].email == email && forall j :: 0 <= j < k ==> parties[j].email != email
  }

  lemma {:induction false} FirstIsMatched(parties: seq<Party>, email: string, k: nat)
    requires FirstWith(parties, email, k)
    ensures MatchEmail(parties, email) == Some(parties[k])
  {
    if k > 0 {
      assert FirstWith(parties[1..], email, k - 1);
      FirstIsMatched(parties[1..], email, k - 1);
    }
  }

  /** The step gave `t`, a session of signer `p` that is issued at `now`. */
  predicate Issues(w: World, got: Option<Token>, t: Token, p: Party, env: string, email: string, now: real) {
    got == Some(t) && t in w.issued && t.env == env && t.signer == p.id && t.email == email && t.expires == now + TTL
  }

  /** Whoever proves an address of an envelope that is not voided gets a session of the first
      signer with it. It is admitted for half an hour, and served if that signer has no
      challenge. */
  lemma IdentifiedIsLetIn(run: seq<Act>, i: nat, n: nat, k: nat, later: real) returns (fresh': Token)
    requires i < n <= |run| && run[i].Identify? && Undisturbed(run, i + 1, n, run[i].env)
    requires run[i].env in After(run[..i]).envs && !After(run[..i]).envs[run[i].env].voided
    requires FirstWith(After(run[..i]).envs[run[i].env].parties, run[i].email, k)
    ensures var w, env := After(run[..i]), run[i].env;
            var p := w.envs[env].parties[k];
            && Issues(After(run[..i + 1]), IdentifyStep(w, env, run[i].email, run[i].now).1, fresh', p, env, run[i].email, run[i].now)
            && (Guard(After(run[..n]).envs, env, fresh', later).Admitted? <==> later <= run[i].now + TTL)
            && (Served(After(run[..n]), env, fresh', later) <==> later <= run[i].now + TTL && !p.locked)
  {
    var w, env := After(run[..i]), run[i].env;
    var p := w.envs[env].parties[k];
    FirstIsMatched(w.envs[env].parties, run[i].email, k);
    RunSound(run, i);
    MatchIsFound(w, env, run[i].email);
    fresh' := IdentifyStep(w, env, run[i].email, run[i].now).1.value;
    AfterStep(run, i + 1);
    assert Stands(After(run[..i + 1]), fresh', p);
    KeepsStanding(run, i + 1, n, fresh', p);
    StandingIsLetIn(After(run[..n]), fresh', p, later);
  }

  /** So does whoever switches to it from an admitted session of the same address. */
  lemma SwitchedIsLetIn(run: seq<Act>, i: nat, n: nat, k: nat, later: real) returns (fresh': Token)
    requires i < n <= |run| && run[i].Switch? && Undisturbed(run, i + 1, n, run[i].target)
    requires run[i].token in After(run[..i]).issued
    requires Guard(After(run[..i]).envs, run[i].path, run[i].token, run[i].now).Admitted?
    requires run[i].target in After(run[..i]).envs && !After(run[..i]).envs[run[i].target].voided
    requires FirstWith(After(run[..i]).envs[run[i].target].parties, run[i].token.email, k)
    ensures var w, env, t := After(run[..i]), run[i].target, run[i].token;
            var p := w.envs[env].parties[k];
            && Issues(After(run[..i + 1]), SwitchStep(w, run[i].path, t, env, run[i].now).1, fresh', p, env, t.email, run[i].now)
            && (Guard(After(run[..n]).envs, env, fresh', later).Admitted? <==> later <= run[i].now + TTL)
            && (Served(After(run[..n]), env, fresh', later) <==> later <= run[i].now + TTL && !p.locked)
  {
    var w, env, t := After(run[..i]), run[i].target, run[i].token;
    var p := w.envs[env].parties[k];
    FirstIsMatched(w.envs[env].parties, t.email, k);
    RunSound(run, i);
    MatchIsFound(w, env, t.email);
    fresh' := SwitchStep(w, run[i].path, t, env, run[i].now).1.value;
    AfterStep(run, i + 1);
    assert Stands(After(run[..i + 1]), fresh', p);
    KeepsStanding(run, i + 1, n, fresh', p);
    StandingIsLetIn(After(run[..n]), fresh', p, later);
  }

  // What the sender decides

  /** Whether the signer's last challenge, since the signers were last set, was one to answer. */
  function LastSet(run: seq<Act>, n: nat, env: string, signer: nat): bool
    requires n <= |run|
  {
    if n == 0 then false
    else match run[n - 1]
      case SetSigners(x, _) => x != env && LastSet(run, n - 1, env, signer)
      case SetChallenge(x, s, some) => if x == env && s == signer then some else LastSet(run, n - 1, env, signer)
      case _ => LastSet(run, n - 1, env, signer)
  }

  predicate LockIs(w: World, env: string, signer: nat, locked: bool) {
    env in w.envs ==> var p := Find(w.envs[env].parties, signer); p.Some? ==> p.value.locked == locked
  }

  predicate Present(w: World, env: string, signer: nat) {
    env in w.envs && Find(w.envs[env].parties, signer).Some?
  }

  lemma PassesKeepsLock(w: World, x: string, s: nat, correct: bool, env: string, signer: nat, locked: bool)
    requires LockIs(w, env, signer, locked)
    ensures LockIs(Passes(w, x, s, correct), env, signer, locked)
  {
    if x in w.envs {
      FindUpdated(w.envs[x].parties, s, true, true, signer);
    }
  }

  lemma ChallengeSetsLock(w: World, x: string, s: nat, some: bool, env: string, signer: nat, locked: bool)
    requires LockIs(w, env, signer, locked)
    ensures LockIs(SetChallengeStep(w, x, s, some), env, signer, if x == env && s == signer then some else locked)
  {
    if x in w.envs {
      FindUpdated(w.envs[x].parties, s, some, false, signer);
    }
  }

  lemma LockStep(w: World, a: Act, env: string, signer: nat, locked: bool)
    requires LockIs(w, env, signer, locked)
    ensures match a
            case SetSigners(x, _) => LockIs(Next(w, a), env, signer, x != env && locked)
            case SetChallenge(x, s, some) => LockIs(Next(w, a), env, signer, if x == env && s == signer then some else locked)
            case _ => LockIs(Next(w, a), env, signer, locked)
  {
    match a
    case Answer(path, s, correct, now) => PassesKeepsLock(w, path, s.signer, correct, env, signer, locked);
    case AnswerOnPage(x, s, correct) => PassesKeepsLock(w, x, s, correct, env, signer, locked);
    case SetChallenge(x, s, some) => ChallengeSetsLock(w, x, s, some, env, signer, locked);
    case _ =>
  }

  /** A signer is locked exactly if the sender's last word on it was a challenge: answering,
      identifying and switching neither set nor clear one. */
  lemma LockedIffLastSet(run: seq<Act>, n: nat, env: string, signer: nat)
    requires n <= |run| && Present(After(run[..n]), env, signer)
    ensures Find(After(run[..n]).envs[env].parties, signer).value.locked == LastSet(run, n, env, signer)
  {
    LocksFollow(run, n, env, signer);
  }

  lemma {:induction false} LocksFollow(run: seq<Act>, n: nat, env: string, signer: nat)
    requires n <= |run|
    ensures LockIs(After(run[..n]), env, signer, LastSet(run, n, env, signer))
  {
    if n > 0 {
      LocksFollow(run, n - 1, env, signer);
      AfterStep(run, n);
      LockStep(After(run[..n - 1]), run[n - 1], env, signer, LastSet(run, n - 1, env, signer));
    }
  }

  lemma VoidedStep(w: World, a: Act, env: string)
    requires env in w.envs && w.envs[env].voided && a != OtherStatus(env)
    ensures env in Next(w, a).envs && Next(w, a).envs[env].voided
  {
  }

  lemma {:induction false} StaysVoided(run: seq<Act>, i: nat, n: nat, env: string)
    requires i < n <= |run| && run[i] == Act.Void(env) && env in After(run[..i]).envs
    requires forall k :: i < k < n ==> run[k] != OtherStatus(env)
    ensures env in After(run[..n]).envs && After(run[..n]).envs[env].voided
  {
    AfterStep(run, n);
    if i < n - 1 {
      StaysVoided(run, i, n - 1, env);
      VoidedStep(After(run[..n - 1]), run[n - 1], env);
    }
  }

  /** A voided envelope admits nobody, whenever the session was issued. */
  lemma VoidedAdmitsNobody(run: seq<Act>, i: nat, n: nat, env: string, t: Token, now: real)
    requires i < n <= |run| && run[i] == Act.Void(env) && env in After(run[..i]).envs
    requires forall k :: i < k < n ==> run[k] != OtherStatus(env)
    ensures !Guard(After(run[..n]).envs, env, t, now).Admitted?
  {
    StaysVoided(run, i, n, env);
  }
}
