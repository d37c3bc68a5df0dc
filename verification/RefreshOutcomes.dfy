/** How calls on the OAuth row end, said of the row's set and the clock alone, and how long a failed refresh keeps others off. */
module RefreshOutcomes {
  import opened Text
  import opened RefreshProtocol

  /** An oauth row with an access token minted for its URL. */
  predicate Usable(row: Row) {
    row.oauth && row.blob.Some? && row.blob.value.tokens.access.Some? && row.blob.value.tokens.resource == row.url
  }

  /** More than a minute is left, or the set never expires. */
  predicate Fresh(tokens: TokenSet, now: int) {
    tokens.expiresAt == None || tokens.expiresAt.value > now + 60
  }

  predicate Unexpired(tokens: TokenSet, now: int) {
    tokens.expiresAt.Some? && tokens.expiresAt.value > now
  }

  /** The set a call falls back on is presented until it lapses; after that the call ends in `error`. */
  function Fallback(tokens: TokenSet, now: int, error: Outcome): Presenter {
    Done(now, if Unexpired(tokens, now) then Presented(tokens) else error, false)
  }

  // ---- A call up to the vendor ----

  /** Without the lock a call ends with an unusable row or one that is good for a minute, and otherwise waits for the lock. */
  lemma FirstLook(s: State, i: nat, now: int, stale: Row)
    requires i !in s.pres
    ensures var n := Run(s, [Begin(i, now, stale)]);
            && n == s.(pres := s.pres[i :=
                 if !Usable(stale) then Done(now, Unreadable, false)
                 else if Fresh(stale.blob.value.tokens, now) then Done(now, Presented(stale.blob.value.tokens), false)
                 else Waiting(now)])
  {
    RunOne(s, Begin(i, now, stale));
    hide Run;
  }

  lemma RunOne(s: State, a: Step)
    ensures Run(s, [a]) == if Enabled(s, a) then Apply(s, a) else s
  {
    hide Apply, Enabled;
    assert [a] == [a] + [];
    RunStep(s, a, []);
    RunEmpty(if Enabled(s, a) then Apply(s, a) else s);
  }

  /** Some caller's last failure keeps this one off. */
  predicate HeldOff(s: State, now: int) {
    s.retryAfter.Some? && now < s.retryAfter.value
  }

  /**
   * Under the lock a call goes on to the vendor exactly when the row is usable, is not good for a minute, is not held off and
   * has a refresh token; otherwise it ends, sending nothing and leaving the row alone.
   */
  lemma SecondLook(s: State, i: nat)
    requires i in s.pres && s.pres[i].Waiting? && s.lock == None
    ensures var now := s.pres[i].now; var n := Run(s, [Enter(i), Reread(i, true)]);
            && i in n.pres && n.row == s.row && n.sent == s.sent && n.retryAfter == s.retryAfter
            && (if !Usable(s.row) then n.pres[i] == Done(now, Unreadable, false)
                else
                  var tokens := s.row.blob.value.tokens;
                  if Fresh(tokens, now) then n.pres[i] == Done(now, Presented(tokens), false)
                  else if HeldOff(s, now) then n.pres[i] == Fallback(tokens, now, RefreshFailed)
                  else if tokens.refresh == None then n.pres[i] == Fallback(tokens, now, Expired)
                  else n.pres[i] == Ready(now, s.row.blob.value))
            && (n.lock == if n.pres[i].Done? then None else Some(P(i)))
  {
    RunTwo(s, Enter(i), Reread(i, true));
    hide Run;
  }

  /** A row that cannot be read under the lock ends the call, whatever it holds. */
  lemma SecondLookFails(s: State, i: nat)
    requires i in s.pres && s.pres[i].Waiting? && s.lock == None
    ensures var n := Run(s, [Enter(i), Reread(i, false)]);
            && n == s.(pres := s.pres[i := Done(s.pres[i].now, RefreshFailed, false)])
  {
    RunTwo(s, Enter(i), Reread(i, false));
    hide Run;
    var now := s.pres[i].now;
    assert s.pres[i := Entered(now)][i := Done(now, RefreshFailed, false)] == s.pres[i := Done(now, RefreshFailed, false)];
  }

  // ---- From the vendor's answer on ----

  /** The row that `i` would refresh, nobody in the lock and no failure holding it off. */
  ghost predicate NeedsRefresh(s: State, i: nat, now: int) {
    && s.lock == None && i !in s.pres && Usable(s.row) && !HeldOff(s, now)
    && !Fresh(s.row.blob.value.tokens, now) && s.row.blob.value.tokens.refresh.Some?
  }

  lemma NeedsIsUnattended(s: State, i: nat, now: int)
    requires NeedsRefresh(s, i, now)
    ensures Unattended(s, i, now) && Open(s.row).Some? && Due(Open(s.row).value, now)
  {
  }

  /**
   * A refresh the vendor does not complete: the call presents the stored set exactly while it has not expired, the row keeps
   * it, and a failure or a lost answer holds everyone off for thirty seconds.
   */
  lemma FailedRefreshEnds(s: State, i: nat, now: int, reply: Reply)
    requires NeedsRefresh(s, i, now) && (reply.Transient? || reply.Lost?)
    ensures var tokens := s.row.blob.value.tokens; var n := Run(s, RefreshUpTo(i, now, s.row) + [Answer(i, reply)]);
            && i in n.pres && n.pres[i] == Fallback(tokens, now, RefreshFailed)
            && n.row == s.row && n.lock == None && n.retryAfter == Some(now + 30) && n.sent == s.sent + {tokens.refresh.value}
  {
    NeedsIsUnattended(s, i, now);
    RefreshSends(s, i, now, s.row);
    RunConcat(s, RefreshUpTo(i, now, s.row), [Answer(i, reply)]);
    var s1 := Run(s, RefreshUpTo(i, now, s.row));
    hide Run, RefreshUpTo, Unattended, Open, Due;
    RunOne(s1, Answer(i, reply));
  }

  /** A rejected grant: the set is presented until it lapses, and the row loses its refresh token alone. */
  lemma RejectedRefreshEnds(s: State, i: nat, now: int)
    requires NeedsRefresh(s, i, now)
    ensures var tokens := s.row.blob.value.tokens;
            var n := Run(s, RefreshUpTo(i, now, s.row) + [Answer(i, Reject), DropToken(i, true)]);
            && i in n.pres && n.pres[i] == Fallback(tokens, now, Expired) && n.lock == None && n.retryAfter == s.retryAfter
            && n.row == s.row.(blob := Some(Blob(s.next, tokens.(refresh := None))))
  {
    NeedsIsUnattended(s, i, now);
    RefreshSends(s, i, now, s.row);
    RunConcat(s, RefreshUpTo(i, now, s.row), [Answer(i, Reject), DropToken(i, true)]);
    var s1 := Run(s, RefreshUpTo(i, now, s.row));
    hide Run, RefreshUpTo, Unattended, Open, Due;
    RunTwo(s1, Answer(i, Reject), DropToken(i, true));
  }

  /** A refresh the vendor completes: the set with the new access token, and the new refresh token if it rotated, is stored and presented. */
  lemma CompletedRefreshEnds(s: State, i: nat, now: int, rotate: bool, at: int)
    requires NeedsRefresh(s, i, now)
    ensures var tokens := s.row.blob.value.tokens;
            var made := TokenSet(Some(s.next), if rotate then Some(s.next + 1) else tokens.refresh, Some(at), s.row.url);
            var n := Run(s, RefreshUpTo(i, now, s.row) + [Answer(i, Renew(rotate, at)), Swap(i, true)]);
            && i in n.pres && n.pres[i] == Done(now, Presented(made), true) && n.lock == None && n.retryAfter == s.retryAfter
            && n.row == s.row.(blob := Some(Blob(s.next + 2, made))) && n.sent == s.sent + {tokens.refresh.value}
  {
    NeedsIsUnattended(s, i, now);
    hide Run, RefreshUpTo, Unattended;
    RefreshLands(s, i, now, rotate, at);
  }

  /** A caller that stops waiting for the lock is told that the refresh failed, and touches nothing. */
  lemma GivingUpEnds(s: State, i: nat)
    requires i in s.pres && s.pres[i].Waiting?
    ensures Run(s, [GiveUp(i)]) == s.(pres := s.pres[i := Done(s.pres[i].now, RefreshFailed, false)])
  {
    RunOne(s, GiveUp(i));
    hide Run;
  }

  /** A rejection whose write does not land leaves the row as it is by then. */
  lemma RejectionMisses(s: State, i: nat, ok: bool)
    requires i in s.pres && s.pres[i].Rejected? && (ok ==> s.row.blob != Some(s.pres[i].base))
    ensures var n := Run(s, [DropToken(i, ok)]);
            && n == s.(lock := None, pres := n.pres) && n.pres == s.pres[i := Fallback(s.pres[i].base.tokens, s.pres[i].now, Expired)]
  {
    RunOne(s, DropToken(i, ok));
    hide Run;
  }

  /** A store that refuses the renewed set does not take it from the caller. */
  lemma RefusedStoreStillPresents(s: State, i: nat)
    requires i in s.pres && s.pres[i].Answered?
    ensures var p := s.pres[i];
            Run(s, [Swap(i, false)]) == s.(lock := None, pres := s.pres[i := Done(p.now, Presented(p.renewed), true)])
  {
    RunOne(s, Swap(i, false));
    hide Run;
  }

  /**
   * After a swap that missed, on a re-read of the row: another writer's usable grant is presented exactly while it has not
   * expired, and left in place; the same refresh token is tried again, and a row that cannot be read costs the caller nothing.
   */
  lemma MissedSwapEnds(s: State, i: nat, ok: bool)
    requires i in s.pres && s.pres[i].Answered? && s.row.blob != Some(s.pres[i].base)
    ensures var p := s.pres[i]; var n := Run(s, [Swap(i, true), RereadMiss(i, ok)]);
            && i in n.pres && n.row == s.row
            && (if !ok then n.pres[i] == Done(p.now, Presented(p.renewed), true)
                else if !Usable(s.row) then n.pres[i] == Done(p.now, Unreadable, false)
                else if s.row.blob.value.tokens.refresh != p.base.tokens.refresh then
                  n.pres[i] == Fallback(s.row.blob.value.tokens, p.now, Expired)
                else n.pres[i] == Again(p.now, p.base, p.renewed, s.row.blob.value))
            && (n.lock == if n.pres[i].Done? then None else s.lock)
  {
    RunTwo(s, Swap(i, true), RereadMiss(i, ok));
    hide Run;
  }

  /** The second swap stores the renewed set exactly when the row still holds what was re-read; the caller gets it anyway. */
  lemma SecondSwapEnds(s: State, i: nat, ok: bool)
    requires i in s.pres && s.pres[i].Again?
    ensures var p := s.pres[i]; var n := Run(s, [SwapAgain(i, ok)]);
            && i in n.pres && n.pres[i] == Done(p.now, Presented(p.renewed), true) && n.lock == None
            && n.row == (if ok && s.row.blob == Some(p.again) then s.row.(blob := Some(Blob(s.next, p.renewed))) else s.row)
  {
    RunOne(s, SwapAgain(i, ok));
    hide Run;
  }

  // ---- The hold-off ----

  /** Nobody inside a refresh, now or later, read the clock before `until`. */
  ghost predicate Barred(s: State, until: int) {
    && s.retryAfter.Some? && s.retryAfter.value >= until
    && forall j :: j in s.pres && InRefresh(s.pres[j]) ==> s.pres[j].now >= until
  }

  lemma BarredMove(s: State, n: State, i: nat, until: int)
    requires Barred(s, until) && i in n.pres && n.pres == s.pres[i := n.pres[i]]
    requires n.retryAfter == s.retryAfter || (n.retryAfter.Some? && n.retryAfter.value >= until)
    requires InRefresh(n.pres[i]) ==> n.pres[i].now >= until
    ensures Barred(n, until)
  {
    hide InRefresh;
  }

  lemma EarlyBarred(s: State, a: Step, until: int)
    requires Barred(s, until) && Enabled(s, a) && Early(a)
    ensures Barred(Apply(s, a), until)
  {
    assert a.i in s.pres && InRefresh(s.pres[a.i]) ==> s.pres[a.i].now >= until;
    assert s.retryAfter.Some? && s.retryAfter.value >= until;
    hide Barred, StillValid, Open, Due;
    BarredMove(s, Apply(s, a), a.i, until);
  }

  lemma LateBarred(s: State, a: Step, until: int)
    requires Barred(s, until) && Enabled(s, a) && Late(a)
    ensures Barred(Apply(s, a), until)
  {
    assert a.i in s.pres && InRefresh(s.pres[a.i]) && s.pres[a.i].now >= until;
    hide Barred, StillValid, TheirAnswer, Renewed;
    if a.Answer? {
      AnswerKeepsBase(s, a.i, a.reply);
      AnswerHolds(s, a.i, a.reply);
    } else {
      SwapsKeepBase(s, a.i, a.ok);
      MissKeepsBase(s, a.i, a.ok);
      SwapsHold(s, a);
    }
    hide DoAnswer, DoSwap, DoSwapAgain, DoRereadMiss, DoDrop;
    BarredMove(s, Apply(s, a), a.i, until);
  }

  lemma AnswerHolds(s: State, i: nat, reply: Reply)
    requires i in s.pres && s.pres[i].Sent? && s.pres[i].base.tokens.refresh.Some?
    ensures var n := DoAnswer(s, i, reply); n.retryAfter == s.retryAfter || n.retryAfter == Some(s.pres[i].now + 30)
  {
    hide StillValid, Renewed;
  }

  lemma SwapsHold(s: State, a: Step)
    requires Enabled(s, a) && Late(a) && !a.Answer?
    ensures Apply(s, a).retryAfter == s.retryAfter
  {
    hide StillValid, TheirAnswer;
  }

  lemma OthersHold(s: State, a: Step)
    requires Enabled(s, a) && !Early(a) && !Late(a)
    ensures Apply(s, a).retryAfter == s.retryAfter
  {
    if a.RevokeRead? || a.Clear? || a.RevokeReread? || a.ClearAgain? {
      RevokesHold(s, a.d, a.ok);
      hide DoRevokeRead, DoClear, DoRevokeReread, DoClearAgain;
    }
  }

  lemma RevokesHold(s: State, d: nat, ok: bool)
    ensures DoRevokeRead(s, d, ok).retryAfter == s.retryAfter
    ensures d in s.revs && s.revs[d].RevMissed? ==> DoRevokeReread(s, d, ok).retryAfter == s.retryAfter
    ensures d in s.revs && s.revs[d].Revoking? ==> DoClear(s, d, ok).retryAfter == s.retryAfter
    ensures d in s.revs && s.revs[d].RevAgain? ==> DoClearAgain(s, d, ok).retryAfter == s.retryAfter
  {
    hide Pair;
  }

  lemma StepBarred(s: State, a: Step, until: int)
    requires Barred(s, until) && Enabled(s, a)
    ensures Barred(Apply(s, a), until)
  {
    if Early(a) {
      EarlyBarred(s, a, until);
      hide *;
    } else if Late(a) {
      LateBarred(s, a, until);
      hide *;
    } else {
      SamePresenters(s, a);
      OthersHold(s, a);
      hide Apply, Enabled, InRefresh;
    }
  }

  lemma {:induction false} RunBarred(s: State, steps: seq<Step>, until: int)
    requires Barred(s, until)
    ensures Barred(Run(s, steps), until)
    decreases |steps|
  {
    hide Barred, Apply, Enabled;
    if steps != [] {
      if Enabled(s, steps[0]) { StepBarred(s, steps[0], until); }
      RunBarred(if Enabled(s, steps[0]) then Apply(s, steps[0]) else s, steps[1..], until);
    }
  }

  /**
   * The hold-off: after a refresh that failed or whose answer was lost, in every interleaving, no call whose clock reads less
   * than thirty seconds past that refresh's gets as far as the vendor, as long as it runs.
   */
  lemma FailureHoldsOff(s: State, before: seq<Step>, i: nat, reply: Reply, after: seq<Step>, j: nat)
    requires Initial(s) && (reply.Transient? || reply.Lost?)
    requires Enabled(Run(s, before), Answer(i, reply))
    ensures var now := Run(s, before).pres[i].now; var n := Run(Run(s, before), [Answer(i, reply)] + after);
            j in n.pres && n.pres[j].now < now + 30 ==> !InRefresh(n.pres[j])
  {
    InitialInv(s);
    RunBase(s, before);
    RunDue(s, before);
    var m := Run(s, before);
    var now := m.pres[i].now;
    RunStep(m, Answer(i, reply), after);
    NobodyElse(m, i);
    hide Run, Base, DueOk;
    var n := DoAnswer(m, i, reply);
    assert Barred(n, now + 30) by { hide StillValid; }
    RunBarred(n, after, now + 30);
  }

  lemma NobodyElse(s: State, i: nat)
    requires Base(s) && i in s.pres && InRefresh(s.pres[i])
    ensures forall j :: j in s.pres && InRefresh(s.pres[j]) ==> j == i
  {
    assert s.lock == Some(P(i));
  }

  // ---- The other writers ----

  /** A sign-in nobody disturbs stores the set it minted, for the URL it was started on. */
  lemma SignInLands(s: State, j: nat, hasRefresh: bool, at: int)
    requires s.lock == None && j !in s.signs && s.row.oauth
    ensures var n := Run(s, [StartSignIn(j), Exchange(j, hasRefresh, at)] + [SignInEnter(j), SignInStore(j, true)]);
            && n.row.oauth && n.row.url == s.row.url && n.row.blob.Some? && n.lock == None && Usable(n.row)
            && n.row.blob.value.tokens ==
               TokenSet(Some(s.next), if hasRefresh then Some(s.next + 1) else None, Some(at), s.row.url)
  {
    var first, last := [StartSignIn(j), Exchange(j, hasRefresh, at)], [SignInEnter(j), SignInStore(j, true)];
    RunConcat(s, first, last);
    RunTwo(s, StartSignIn(j), Exchange(j, hasRefresh, at));
    var m := Run(s, first);
    hide Run;
    assert m.row == s.row && m.lock == None && j in m.signs && m.signs[j].Exchanged? && m.signs[j].seen == s.row.stamp;
    RunTwo(m, SignInEnter(j), SignInStore(j, true));
  }

  /** A sign-in that finds the row edited since it was started, or no longer oauth, stores nothing. */
  lemma StaleSignInIsDropped(s: State, j: nat, ok: bool)
    requires j in s.signs && s.signs[j].Storing? && (!s.row.oauth || s.row.stamp != s.signs[j].seen)
    ensures var n := Run(s, [SignInStore(j, ok)]); n.row == s.row && n.lock == None
  {
    RunOne(s, SignInStore(j, ok));
    hide Run;
  }

  /** A disconnect nobody disturbs empties the row. */
  lemma DisconnectLands(s: State, d: nat)
    requires s.lock == None && d !in s.revs && s.row.oauth && s.row.blob.Some?
    ensures var n := Run(s, [RevokeEnter(d), RevokeRead(d, true)] + [Clear(d, true)]);
            n.row == s.row.(blob := None, stamp := n.row.stamp) && n.row.stamp == s.next && n.lock == None
  {
    var first, last := [RevokeEnter(d), RevokeRead(d, true)], [Clear(d, true)];
    RunConcat(s, first, last);
    RunTwo(s, RevokeEnter(d), RevokeRead(d, true));
    var m := Run(s, first);
    hide Run;
    RunOne(m, Clear(d, true));
  }

  /** A disconnect that finds another pair in the row after its clear missed leaves it there. */
  lemma NewGrantSurvivesDisconnect(s: State, d: nat, ok: bool)
    requires d in s.revs && s.revs[d].RevMissed? && s.row.blob.Some?
    requires (s.row.blob.value.tokens.access, s.row.blob.value.tokens.refresh) != (s.revs[d].tokens.access, s.revs[d].tokens.refresh)
    ensures var n := Run(s, [RevokeReread(d, ok)]); n.row == s.row && n.lock == None && d in n.revs && n.revs[d].Revoked?
  {
    RunOne(s, RevokeReread(d, ok));
    hide Run;
  }

  /**
   * A PATCH keeps the stored set exactly when the row was and stays oauth under the same URL and no client identity is given;
   * a client identity alone is what it stores otherwise, and else nothing.
   */
  lemma PatchDecides(s: State, oauth: bool, url: nat, auth: PatchAuth)
    requires s.lock == None
    ensures var n := Run(s, [Patch(oauth, url, auth)]);
            n.row.oauth == oauth && n.row.url == url && n.row.stamp == s.next + 1 && n.sent == s.sent
    ensures var n := Run(s, [Patch(oauth, url, auth)]);
            n.row.blob == (if oauth && auth.ClientOnly? then Some(Blob(s.next, TokenSet(None, None, None, url)))
                           else if oauth && s.row.oauth && url == s.row.url then s.row.blob
                           else None)
  {
    RunOne(s, Patch(oauth, url, auth));
    hide Run;
  }

  /** A disconnect whose clear missed tries once more when the row still holds the pair it read, and empties it then. */
  lemma RetriedDisconnectLands(s: State, d: nat)
    requires d in s.revs && s.revs[d].RevMissed? && s.row.oauth && s.row.blob.Some?
    requires (s.row.blob.value.tokens.access, s.row.blob.value.tokens.refresh) == (s.revs[d].tokens.access, s.revs[d].tokens.refresh)
    ensures var n := Run(s, [RevokeReread(d, true), ClearAgain(d, true)]); n.row.blob == None && n.lock == None && n.row.url == s.row.url
  {
    RunTwo(s, RevokeReread(d, true), ClearAgain(d, true));
    hide Run;
  }

  /** A re-wrap keeps the set under new bytes, when the row still holds the bytes it read, and otherwise changes nothing. */
  lemma RewrapKeepsTheSet(s: State, k: nat)
    requires k in s.rekeys
    ensures var n := Run(s, [RekeySwap(k)]);
            n.row == if s.row.blob == Some(s.rekeys[k]) then s.row.(blob := Some(Blob(s.next, s.rekeys[k].tokens))) else s.row
  {
    RunOne(s, RekeySwap(k));
    hide Run;
  }
}
