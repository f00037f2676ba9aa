/**
 Who may use a session. Over every history, and whichever way the lock sections interleave, a check
 succeeds exactly with the token the session was created with, and exactly as long as no clock reading
 since then found the latest sign of life to lie a lifetime back.
 */
module SessionAuthorization {
  import opened Common
  import opened Sessions

  // ---------------------------------------------------------------- reading a history

  /** The first section that creates the session; the registry leaves out every later one. */
  ghost predicate Creates(history: seq<Section>, c: nat, t: ThreadId)
    requires c < |history|
  {
    && history[c].Create? && history[c].thread == t
    && forall j | 0 <= j < c :: !(history[j].Create? && history[j].thread == t)
  }

  /** The section reads the clock, and forgets the sessions that have expired by then. */
  ghost predicate ReadsClock(history: seq<Section>, i: nat)
    requires i < |history|
  {
    history[i].Require? || (history[i].Create? && Creates(history, i, history[i].thread))
  }

  /** A sign of life of the session created at `c`: its creation, or a check that presents its token. */
  ghost predicate Touches(history: seq<Section>, c: nat, i: nat)
    requires c < |history| && history[c].Create? && i < |history|
  {
    i == c || (history[i].Require? && history[i].thread == history[c].thread && history[i].token == history[c].token)
  }

  ghost predicate LatestTouch(history: seq<Section>, c: nat, i: nat, m: nat)
    requires c < |history| && history[c].Create? && i <= |history|
  {
    && c <= m < i && Touches(history, c, m)
    && forall k | m < k < i :: !Touches(history, c, k)
  }

  /** When the clock is read at `i`, the lifetime that the latest sign of life granted is not over. */
  ghost predicate NotExpired(ttl: real, history: seq<Section>, c: nat, i: nat)
    requires c < |history| && history[c].Create? && i < |history| && ReadsClock(history, i)
  {
    forall m: nat | LatestTouch(history, c, i, m) :: history[i].now < history[m].now + ttl
  }

  ghost predicate Alive(ttl: real, history: seq<Section>, c: nat)
    requires c < |history| && history[c].Create?
  {
    forall i | c < i < |history| && ReadsClock(history, i) :: NotExpired(ttl, history, c, i)
  }

  // ---------------------------------------------------------------- one more section

  lemma {:induction false} SomeTouchIsLatest(history: seq<Section>, c: nat, i: nat) returns (m: nat)
    requires c < i <= |history| && history[c].Create?
    ensures LatestTouch(history, c, i, m)
    ensures forall k | c <= k < i && LatestTouch(history, c, i, k) :: k == m
  {
    m := c;
    for n := c + 1 to i
      invariant c <= m < n && Touches(history, c, m) && forall k | m < k < n :: !Touches(history, c, k)
    {
      if Touches(history, c, n) {
        m := n;
      }
    }
  }

  lemma {:induction false} CreatorIsKept(history: seq<Section>, x: Section, i: nat, t: ThreadId)
    requires i < |history|
    ensures Creates(history + [x], i, t) <==> Creates(history, i, t)
    ensures ReadsClock(history + [x], i) <==> ReadsClock(history, i)
  {
    var longer := history + [x];
    assert forall j | 0 <= j < |history| :: longer[j] == history[j];
  }

  lemma {:induction false} TouchIsKept(history: seq<Section>, x: Section, c: nat, i: nat, m: nat)
    requires c < |history| && history[c].Create? && i <= |history|
    ensures LatestTouch(history + [x], c, i, m) <==> LatestTouch(history, c, i, m)
  {
    var longer := history + [x];
    assert forall j | 0 <= j < |history| :: longer[j] == history[j];
    assert forall j | 0 <= j < |history| :: Touches(longer, c, j) == Touches(history, c, j);
  }

  lemma {:induction false} LatestAfter(history: seq<Section>, x: Section, c: nat, m: nat, n: nat)
    requires c < |history| && history[c].Create? && LatestTouch(history, c, |history|, m)
    ensures LatestTouch(history + [x], c, |history| + 1, n)
            <==> n == if Touches(history + [x], c, |history|) then |history| else m
  {
    var longer := history + [x];
    TouchIsKept(history, x, c, |history|, m);
    TouchIsKept(history, x, c, |history|, n);
    assert forall k | 0 <= k < |history| :: Touches(longer, c, k) == Touches(history, c, k);
  }

  lemma {:induction false} ExpiryIsKept(ttl: real, history: seq<Section>, x: Section, c: nat, i: nat)
    requires c < |history| && history[c].Create? && i < |history| && ReadsClock(history, i)
    ensures ReadsClock(history + [x], i)
    ensures NotExpired(ttl, history + [x], c, i) <==> NotExpired(ttl, history, c, i)
  {
    CreatorIsKept(history, x, i, if history[i].Create? then history[i].thread else history[c].thread);
    forall m ensures LatestTouch(history + [x], c, i, m) <==> LatestTouch(history, c, i, m) {
      TouchIsKept(history, x, c, i, m);
    }
  }

  /** A session alive so far stays alive unless the next section reads the clock too late. */
  lemma {:induction false} AliveAfter(ttl: real, history: seq<Section>, x: Section, c: nat, m: nat)
    requires c < |history| && history[c].Create? && LatestTouch(history, c, |history|, m)
    ensures Alive(ttl, history + [x], c) <==>
            Alive(ttl, history, c) && (ReadsClock(history + [x], |history|) ==> x.now < history[m].now + ttl)
  {
    var longer := history + [x];
    forall i | 0 <= i < |history|
      ensures ReadsClock(longer, i) <==> ReadsClock(history, i)
      ensures ReadsClock(history, i) ==> (NotExpired(ttl, longer, c, i) <==> NotExpired(ttl, history, c, i))
    {
      CreatorIsKept(history, x, i, history[c].thread);
      if ReadsClock(history, i) {
        ExpiryIsKept(ttl, history, x, c, i);
      }
    }
    if ReadsClock(longer, |history|) {
      forall k: nat ensures LatestTouch(longer, c, |history|, k) <==> k == m {
        TouchIsKept(history, x, c, |history|, k);
      }
      assert longer[m] == history[m] && longer[|history|] == x;
      assert NotExpired(ttl, longer, c, |history|) <==> x.now < history[m].now + ttl;
    }
  }

  // ---------------------------------------------------------------- what the registry knows of a session

  /** The record of a session agrees with the history since its creation at `c`. */
  ghost predicate RecordAgrees(ttl: real, history: seq<Section>, t: ThreadId, c: nat)
    requires c < |history| && history[c].Create?
  {
    var s := After(ttl, history);
    && (t in s.records <==> Alive(ttl, history, c))
    && (t in s.records ==> s.records[t].token == history[c].token)
    && (forall m: nat | LatestTouch(history, c, |history|, m) ::
          t in s.records ==> s.records[t].expiresAt == history[m].now + ttl)
  }

  ghost predicate Agrees(ttl: real, history: seq<Section>, t: ThreadId) {
    var s := After(ttl, history);
    && (SessionCreated(t) in s.log <==> exists c | 0 <= c < |history| :: Creates(history, c, t))
    && (t in s.records ==> SessionCreated(t) in s.log)
    && (forall c | 0 <= c < |history| && Creates(history, c, t) :: RecordAgrees(ttl, history, t, c))
  }

  /** A section that reads no clock creates no session, ends none, and hands out no new token. */
  lemma {:induction false} BodiesSpareSessions(s: Registry, ttl: real, x: Section, t: ThreadId)
    requires !x.Create? && !x.Require?
    ensures var s' := Perform(s, ttl, x).state;
            && (t in s'.records <==> t in s.records)
            && (t in s.records ==> s'.records[t].token == s.records[t].token
                                   && s'.records[t].expiresAt == s.records[t].expiresAt)
            && (SessionCreated(t) in s'.log <==> SessionCreated(t) in s.log)
  {
  }

  lemma {:induction false} LastSection(ttl: real, history: seq<Section>, x: Section)
    ensures var s := After(ttl, history);
            After(ttl, history + [x]) == if Fresh(s.log, x) then Perform(s, ttl, x).state else s
  {
    assert (history + [x])[..|history|] == history;
  }

  /** The first creation of a session, seen in the history and in the log. */
  lemma {:induction false} CreationsAgree(ttl: real, history: seq<Section>, x: Section, t: ThreadId)
    requires Agrees(ttl, history, t)
    ensures x.Create? && x.thread == t ==>
              (Creates(history + [x], |history|, t) <==> SessionCreated(t) !in After(ttl, history).log)
    ensures x.Create? && x.thread == t ==>
              (Fresh(After(ttl, history).log, x) <==> SessionCreated(t) !in After(ttl, history).log)
    ensures (exists c | 0 <= c < |history + [x]| :: Creates(history + [x], c, t)) <==>
              SessionCreated(t) in After(ttl, history).log || (x.Create? && x.thread == t)
  {
    var longer := history + [x];
    forall c | 0 <= c < |history| ensures Creates(longer, c, t) <==> Creates(history, c, t) {
      CreatorIsKept(history, x, c, t);
    }
    if x.Create? && x.thread == t {
      if j :| 0 <= j < |history| && history[j].Create? && history[j].thread == t {
        var c := FirstCreation(history, t, j);
        assert Creates(longer, c, t) && longer[c] == history[c];
      } else {
        assert Creates(longer, |history|, t);
      }
    }
  }

  lemma {:induction false} FirstCreation(history: seq<Section>, t: ThreadId, j: nat) returns (c: nat)
    requires j < |history| && history[j].Create? && history[j].thread == t
    ensures c <= j && Creates(history, c, t)
  {
    c := 0;
    while !(history[c].Create? && history[c].thread == t)
      invariant c <= j && forall k | 0 <= k < c :: !(history[k].Create? && history[k].thread == t)
      decreases j - c
    {
      c := c + 1;
    }
  }

  /** What one section does to a session that exists: it may end it, or postpone its end. */
  ghost predicate Moves(ttl: real, s: Registry, s': Registry, x: Section, t: ThreadId, clock: bool, touch: bool)
    requires clock ==> x.Create? || x.Require?
    requires touch ==> x.Require?
  {
    && (t in s'.records <==> t in s.records && (clock ==> x.now < s.records[t].expiresAt))
    && (t in s'.records ==> s'.records[t].token == s.records[t].token)
    && (t in s'.records ==> s'.records[t].expiresAt == if touch then x.now + ttl else s.records[t].expiresAt)
  }

  lemma {:induction false} SectionMovesSession(ttl: real, history: seq<Section>, x: Section, t: ThreadId, c: nat)
    requires c < |history| && Creates(history, c, t) && Agrees(ttl, history, t)
    requires x.Create? ==> Agrees(ttl, history, x.thread)
    ensures Touches(history + [x], c, |history|) ==> x.Require?
    ensures Moves(ttl, After(ttl, history), After(ttl, history + [x]), x, t,
                  ReadsClock(history + [x], |history|), Touches(history + [x], c, |history|))
  {
    var s := After(ttl, history);
    LastSection(ttl, history, x);
    assert SessionCreated(t) in s.log && RecordAgrees(ttl, history, t, c);
    if x.Create? {
      CreationsAgree(ttl, history, x, x.thread);
    } else if !x.Require? {
      BodiesSpareSessions(s, ttl, x, t);
    }
  }

  lemma {:induction false} KnownSessionAgrees(ttl: real, history: seq<Section>, x: Section, t: ThreadId, c: nat)
    requires c < |history| && Creates(history, c, t) && Agrees(ttl, history, t)
    requires x.Create? ==> Agrees(ttl, history, x.thread)
    ensures RecordAgrees(ttl, history + [x], t, c)
  {
    var longer := history + [x];
    var m := SomeTouchIsLatest(history, c, |history|);
    SectionMovesSession(ttl, history, x, t, c);
    AliveAfter(ttl, history, x, c, m);
    assert RecordAgrees(ttl, history, t, c);
    assert longer[c] == history[c] && longer[m] == history[m];
    forall n: nat | LatestTouch(longer, c, |longer|, n)
      ensures t in After(ttl, longer).records ==> After(ttl, longer).records[t].expiresAt == longer[n].now + ttl
    {
      LatestAfter(history, x, c, m, n);
    }
  }

  lemma {:induction false} NewSessionAgrees(ttl: real, history: seq<Section>, x: Section, t: ThreadId)
    requires Agrees(ttl, history, t) && x.Create? && Creates(history + [x], |history|, t)
    ensures RecordAgrees(ttl, history + [x], t, |history|)
  {
    LastSection(ttl, history, x);
    CreationsAgree(ttl, history, x, t);
    assert Alive(ttl, history + [x], |history|);
  }

  lemma {:induction false} CreatedSessionsAgree(ttl: real, history: seq<Section>, x: Section, t: ThreadId)
    requires Agrees(ttl, history, t) && (x.Create? ==> Agrees(ttl, history, x.thread))
    ensures SessionCreated(t) in After(ttl, history + [x]).log <==>
            SessionCreated(t) in After(ttl, history).log || (x.Create? && x.thread == t)
    ensures t in After(ttl, history + [x]).records ==> SessionCreated(t) in After(ttl, history + [x]).log
  {
    var s := After(ttl, history);
    LastSection(ttl, history, x);
    if x.Create? {
      CreationsAgree(ttl, history, x, x.thread);
      if Fresh(s.log, x) {
        assert After(ttl, history + [x]).log[|s.log|] == SessionCreated(x.thread);
      }
    } else if !x.Require? {
      BodiesSpareSessions(s, ttl, x, t);
    }
  }

  lemma {:induction false} SessionsAgree(ttl: real, history: seq<Section>, t: ThreadId)
    ensures Agrees(ttl, history, t)
  {
    if history != [] {
      var earlier, x := history[..|history| - 1], history[|history| - 1];
      assert history == earlier + [x];
      SessionsAgree(ttl, earlier, t);
      SessionsAgree(ttl, earlier, x.thread);
      CreatedSessionsAgree(ttl, earlier, x, t);
      CreationsAgree(ttl, earlier, x, t);
      forall c: nat | c < |history| && Creates(history, c, t) ensures RecordAgrees(ttl, history, t, c) {
        if c < |earlier| {
          CreatorIsKept(earlier, x, c, t);
          KnownSessionAgrees(ttl, earlier, x, t, c);
        } else {
          NewSessionAgrees(ttl, earlier, x, t);
        }
      }
    }
  }

  // ---------------------------------------------------------------- main results

  /** Some section created the session with this token, and no clock reading since then, up to this one, is too late. */
  ghost predicate HoldsToken(ttl: real, history: seq<Section>, now: real, t: ThreadId, token: Token) {
    exists c | 0 <= c < |history| ::
      Creates(history, c, t) && history[c].token == token && Alive(ttl, history + [Require(now, t, token)], c)
  }

  /** The sessions whose end lies after `now` are kept as they are, and no other one, apart from `t`. */
  ghost predicate OnlyExpiredGo(s: Registry, s': Registry, now: real, t: Option<ThreadId>) {
    && s'.log == s.log
    && (forall u :: u in s'.records <==> u in s.records && now < s.records[u].expiresAt)
    && (forall u | u in s'.records && t != Some(u) :: s'.records[u] == s.records[u])
  }

  /** The token of a living session is the one its creation was given: no section ever changes it. */
  lemma {:induction false} StoredTokenIsTheCreators(ttl: real, history: seq<Section>, t: ThreadId)
    requires t in After(ttl, history).records
    ensures exists c | 0 <= c < |history| ::
              Creates(history, c, t) && After(ttl, history).records[t].token == history[c].token
  {
    SessionsAgree(ttl, history, t);
    var c :| 0 <= c < |history| && Creates(history, c, t);
    assert RecordAgrees(ttl, history, t, c);
  }

  /** A new session starts with its token and a full lifetime, without run or approval; expired ones are forgotten. */
  lemma {:induction false} CreationIsExact(ttl: real, history: seq<Section>, now: real, t: ThreadId, token: Token)
    requires forall j | 0 <= j < |history| :: !(history[j].Create? && history[j].thread == t)
    ensures var (s, s') := (After(ttl, history), After(ttl, history + [Create(now, t, token)]));
            && Perform(s, ttl, Create(now, t, token)).reply == Done && t !in s.records
            && s'.log == s.log + [SessionCreated(t)]
            && t in s'.records && s'.records[t] == Record(token, now + ttl, None, None, None)
            && (forall u | u != t :: u in s'.records <==> u in s.records && now < s.records[u].expiresAt)
            && (forall u | u != t && u in s'.records :: s'.records[u] == s.records[u])
  {
    SessionsAgree(ttl, history, t);
    LastSection(ttl, history, Create(now, t, token));
  }

  /**
   A check succeeds exactly for the token with which the session was created, and exactly if no clock
   reading since the creation, this one included, found the latest sign of life a lifetime back. A failing
   check forgets expired sessions and does nothing else; a successful one also postpones the end of its session.
   */
  lemma {:induction false} AuthorisedIff(ttl: real, history: seq<Section>, now: real, t: ThreadId, token: Token)
    ensures var s := After(ttl, history);
            var outcome := Perform(s, ttl, Require(now, t, token));
            && outcome.reply == (if HoldsToken(ttl, history, now, t, token) then Done else Unauthorized)
            && OnlyExpiredGo(s, outcome.state, now, if outcome.reply == Done then Some(t) else None)
            && (outcome.reply == Done ==>
                  t in s.records && t in outcome.state.records
                  && outcome.state.records[t] == s.records[t].(expiresAt := now + ttl))
  {
    var s := After(ttl, history);
    SessionsAgree(ttl, history, t);
    var check := Require(now, t, token);
    assert Perform(s, ttl, check).reply == Done <==>
           t in s.records && now < s.records[t].expiresAt && s.records[t].token == token;
    if t in s.records || HoldsToken(ttl, history, now, t, token) {
      var c :| 0 <= c < |history| && Creates(history, c, t);
      var m := SomeTouchIsLatest(history, c, |history|);
      AliveAfter(ttl, history, check, c, m);
      assert RecordAgrees(ttl, history, t, c);
      assert ReadsClock(history + [check], |history|);
    }
  }

  /**
   With a token that is not the one the session was created with, every operation answers that it is
   unauthorised; it takes part in no run and no approval, and changes nothing but to forget expired sessions.
   */
  lemma {:induction false} ForeignTokenDoesNothing(
    ttl: real, history: seq<Section>, now: real, t: ThreadId, token: Token, body: Section, c: nat)
    requires c < |history| && Creates(history, c, t) && history[c].token != token
    ensures var s := After(ttl, history);
            var outcome := Operation(s, ttl, now, t, token, body);
            outcome.reply == Unauthorized && OnlyExpiredGo(s, outcome.state, now, None)
  {
    AuthorisedIff(ttl, history, now, t, token);
  }
}
