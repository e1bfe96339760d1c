/** The session handlers as they write their rows: each ends in the state `Sessions.Next` gives. */
module SessionHandlers {
  import opened Basics
  import opened Sessions

  class Handlers {
    var envs: map<string, Envelope>
    var nextId: nat
    ghost var issued: set<Token>

    constructor ()
      ensures Contents() == After([])
    {
      envs, nextId, issued := map[], 0, {};
    }

    ghost function Contents(): World
      reads this
    {
      World(envs, nextId, issued)
    }

    /** What the signature check leaves of a cookie: nothing, or a token that was issued. */
    ghost predicate Genuine(cookie: Option<Token>)
      reads this
    {
      cookie.Some? ==> cookie.value in issued
    }

    method MatchSigner(env: string, email: string) returns (r: Option<Party>)
      ensures r == if env in envs then MatchEmail(envs[env].parties, email) else None
    {
      if email == "" || env !in envs {
        return None;
      }
      var parties := envs[env].parties;
      for i := 0 to |parties|
        invariant MatchEmail(parties, email) == MatchEmail(parties[i..], email)
      {
        if parties[i].email == email {
          return Some(parties[i]);
        }
      }
      return None;
    }

    /** Email code or Google callback, once the address is proved. */
    method IdentifySigner(env: string, email: string, now: real) returns (cookie: Option<Token>)
      modifies this
      ensures (Contents(), cookie) == IdentifyStep(old(Contents()), env, email, now)
    {
      var s := MatchSigner(env, email);
      if s.None? {
        return None;
      }
      var hasChallenge := s.value.locked;
      var t := Token(env, s.value.id, email, !hasChallenge, envs[env].epoch, now + TTL);
      issued := issued + {t};
      return Some(t);
    }

    method RequireSession(path: string, cookie: Option<Token>, now: real) returns (v: Verdict)
      ensures v == if cookie.None? then Denied else Guard(envs, path, cookie.value, now)
    {
      if cookie.None? || cookie.value.expires < now {
        return Denied;
      }
      var t := cookie.value;
      if t.env !in envs || t.env != path {
        return Denied;
      }
      var e := envs[t.env];
      var p := Find(e.parties, t.signer);
      if p.None? || t.epoch != e.epoch {
        return Denied;
      }
      return if e.voided then Closed else Admitted(p.value);
    }

    method AnswerChallenge(path: string, cookie: Option<Token>, correct: bool, now: real) returns (renewed: Option<Token>)
      requires Genuine(cookie)
      modifies this
      ensures cookie.Some? ==> (Contents(), renewed) == AnswerStep(old(Contents()), path, cookie.value, correct, now)
      ensures cookie.None? ==> Contents() == old(Contents()) && renewed == None
    {
      var v := RequireSession(path, cookie, now);
      if !v.Admitted? || !v.party.locked || !correct {
        return None;
      }
      var e := envs[path];
      var t := Token(path, v.party.id, cookie.value.email, true, e.epoch, now + TTL);
      envs := envs[path := e.(parties := UpdateParty(e.parties, v.party.id, true, true))];
      issued := issued + {t};
      return Some(t);
    }

    method SwitchEnvelope(path: string, cookie: Option<Token>, target: string, now: real) returns (other: Option<Token>)
      requires Genuine(cookie)
      modifies this
      ensures cookie.Some? ==> (Contents(), other) == SwitchStep(old(Contents()), path, cookie.value, target, now)
      ensures cookie.None? ==> Contents() == old(Contents()) && other == None
    {
      var v := RequireSession(path, cookie, now);
      if !v.Admitted? {
        return None;
      }
      var email := cookie.value.email;
      var s := MatchSigner(target, email);
      if s.None? {
        return None;
      }
      var row := Find(envs[target].parties, s.value.id);
      var hasChallenge := row.Some? && row.value.locked;
      var t := Token(target, s.value.id, email, !hasChallenge, envs[target].epoch, now + TTL);
      issued := issued + {t};
      return Some(t);
    }

    method BumpEpoch(env: string)
      modifies this`envs
      ensures Contents() == BumpStep(old(Contents()), env)
    {
      if env in envs {
        envs := envs[env := envs[env].(epoch := envs[env].epoch + 1)];
      }
    }

    method SetSignerChallenge(env: string, signer: nat, some: bool) returns (ok: bool)
      modifies this`envs
      ensures Contents() == SetChallengeStep(old(Contents()), env, signer, some)
      ensures ok == (env in old(envs) && Find(old(envs)[env].parties, signer).Some?)
    {
      if env !in envs || Find(envs[env].parties, signer).None? {
        return false;
      }
      envs := envs[env := envs[env].(parties := UpdateParty(envs[env].parties, signer, some, false))];
      BumpEpoch(env);
      return true;
    }

    method VoidEnvelope(env: string)
      modifies this`envs
      ensures Contents() == Next(old(Contents()), Act.Void(env))
    {
      if env in envs {
        var e := envs[env];
        envs := envs[env := e.(voided := true, epoch := e.epoch + 1)];
      }
    }
  }
}
