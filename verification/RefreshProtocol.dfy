/**
 * The OAuth refresh, sign-in and disconnect protocol on one upstream row, as a step system. Every access to shared
 * state (the row, the process lock, the hold-off, the vendor) is one step; every actor may stand anywhere between
 * two of its own steps while the others move. Refreshes, sign-ins, disconnects and PATCHes take the lock; a rekey
 * and a lock-free edit do not.
 */
module RefreshProtocol {
  import opened Text

  type Token = nat

  /** `expiresAt` None is the zero time: the set does not lapse. */
  datatype TokenSet = TokenSet(access: Option<Token>, refresh: Option<Token>, expiresAt: Option<int>, resource: nat)

  /** A sealed set: sealing draws a fresh nonce, so two blobs are the same bytes only when they are the same blob. */
  datatype Blob = Blob(nonce: nat, tokens: TokenSet)

  /** `stamp` is updated_at. A row of another auth type keeps no token set, so its blob is None here. */
  datatype Row = Row(oauth: bool, url: nat, blob: Option<Blob>, stamp: nat)

  datatype Outcome = Presented(tokens: TokenSet) | Unreadable | Expired | RefreshFailed

  /** Where a Present call stands; from Entered on, Done aside, it holds the lock. */
  datatype Presenter =
    | Waiting(now: int)
    | Entered(now: int)
    | Ready(now: int, base: Blob)
    | Sent(now: int, base: Blob)
    | Answered(now: int, base: Blob, renewed: TokenSet)
    | Missed(now: int, base: Blob, renewed: TokenSet)
    | Again(now: int, base: Blob, renewed: TokenSet, again: Blob)
    | Rejected(now: int, base: Blob)
    | Done(now: int, outcome: Outcome, minted: bool)

  datatype SignIn = Started(seen: nat, resource: nat) | Exchanged(seen: nat, tokens: TokenSet) | Storing(seen: nat, tokens: TokenSet) | SignedIn

  datatype Revoke =
    | RevEntered
    | Revoking(tokens: TokenSet, stamp: nat)
    | RevMissed(tokens: TokenSet)
    | RevAgain(tokens: TokenSet, stamp: nat)
    | Revoked

  datatype Actor = P(p: nat) | S(s: nat) | D(d: nat)

  datatype State = State(
    row: Row, lock: Option<Actor>, retryAfter: Option<int>, next: nat,
    pres: map<nat, Presenter>, signs: map<nat, SignIn>, revs: map<nat, Revoke>, rekeys: map<nat, Blob>,
    sent: set<Token>,       // refresh tokens that have gone to the token endpoint
    spent: set<Token>,      // those the vendor has answered with a rotated successor
    doubled: bool,          // a spent token was sent
    misCleared: bool)       // a disconnect removed another pair than the one it read

  const WINDOW := 60
  const HOLD_OFF := 30

  predicate Due(tokens: TokenSet, now: int) {
    tokens.expiresAt.Some? && tokens.expiresAt.value <= now + WINDOW
  }

  function StillValid(tokens: TokenSet, now: int, lapsed: Outcome): Outcome {
    if tokens.expiresAt.Some? && tokens.expiresAt.value > now then Presented(tokens) else lapsed
  }

  /** open: an oauth row whose set has an access token and was minted for the row's URL. */
  function Open(row: Row): Option<TokenSet> {
    if row.oauth && row.blob.Some? && row.blob.value.tokens.access.Some? && row.blob.value.tokens.resource == row.url
    then Some(row.blob.value.tokens) else None
  }

  function Pair(blob: Option<Blob>): (Option<Token>, Option<Token>) {
    if blob == None then (None, None) else (blob.value.tokens.access, blob.value.tokens.refresh)
  }

  predicate InRefresh(p: Presenter) {
    p.Ready? || p.Sent? || p.Answered? || p.Missed? || p.Again? || p.Rejected?
  }

  predicate Holds(p: Presenter) {
    p.Entered? || InRefresh(p)
  }

  predicate RevHolds(d: Revoke) {
    d.RevEntered? || d.Revoking? || d.RevMissed? || d.RevAgain?
  }

  // ---- Steps ----

  /**
   * How a refresh at the vendor ends. Lost is a rotation whose answer never arrives or is refused; Unsealed is a good
   * answer the keyring fails to seal.
   */
  datatype Reply = Renew(rotate: bool, expiresAt: int) | Reject | Transient | Lost | Unsealed(rotate: bool)

  datatype PatchAuth = KeepAuth | ClientOnly

  datatype Step =
    | Begin(i: nat, now: int, stale: Row)
    | Enter(i: nat)
    | GiveUp(i: nat)
    | Reread(i: nat, ok: bool)
    | Send(i: nat)
    | Answer(i: nat, reply: Reply)
    | Swap(i: nat, ok: bool)
    | RereadMiss(i: nat, ok: bool)
    | SwapAgain(i: nat, ok: bool)
    | DropToken(i: nat, ok: bool)
    | StartSignIn(j: nat)
    | Exchange(j: nat, hasRefresh: bool, expiresAt: int)
    | SignInEnter(j: nat)
    | SignInStore(j: nat, ok: bool)
    | RevokeEnter(d: nat)
    | RevokeRead(d: nat, ok: bool)
    | Clear(d: nat, ok: bool)
    | RevokeReread(d: nat, ok: bool)
    | ClearAgain(d: nat, ok: bool)
    | Patch(oauth: bool, url: nat, auth: PatchAuth)
    | RekeyRead(k: nat)
    | RekeySwap(k: nat)
    | Edit(tokens: TokenSet)

  predicate Enabled(s: State, a: Step) {
    match a
    case Begin(i, _, _) => i !in s.pres
    case Enter(i) => i in s.pres && s.pres[i].Waiting? && s.lock == None
    case GiveUp(i) => i in s.pres && s.pres[i].Waiting?
    case Reread(i, _) => i in s.pres && s.pres[i].Entered?
    case Send(i) => i in s.pres && s.pres[i].Ready? && s.pres[i].base.tokens.refresh.Some?
    case Answer(i, _) => i in s.pres && s.pres[i].Sent? && s.pres[i].base.tokens.refresh.Some?
    case Swap(i, _) => i in s.pres && s.pres[i].Answered?
    case RereadMiss(i, _) => i in s.pres && s.pres[i].Missed?
    case SwapAgain(i, _) => i in s.pres && s.pres[i].Again?
    case DropToken(i, _) => i in s.pres && s.pres[i].Rejected?
    case StartSignIn(j) => j !in s.signs && s.row.oauth
    case Exchange(j, _, _) => j in s.signs && s.signs[j].Started? && s.row.oauth && s.row.stamp == s.signs[j].seen
    case SignInEnter(j) => j in s.signs && s.signs[j].Exchanged? && s.lock == None
    case SignInStore(j, _) => j in s.signs && s.signs[j].Storing?
    case RevokeEnter(d) => d !in s.revs && s.lock == None
    case RevokeRead(d, _) => d in s.revs && s.revs[d].RevEntered?
    case Clear(d, _) => d in s.revs && s.revs[d].Revoking?
    case RevokeReread(d, _) => d in s.revs && s.revs[d].RevMissed?
    case ClearAgain(d, _) => d in s.revs && s.revs[d].RevAgain?
    case Patch(_, _, _) => s.lock == None
    case RekeyRead(k) => k !in s.rekeys && s.row.blob.Some?
    case RekeySwap(k) => k in s.rekeys
    case Edit(tokens) => s.row.oauth && (tokens.refresh.Some? ==> tokens.refresh.value <= s.next + 2)
  }

  function Leave(s: State, i: nat, outcome: Outcome, minted: bool): State
    requires i in s.pres
  {
    s.(lock := None, pres := s.pres[i := Done(s.pres[i].now, outcome, minted)])
  }

  function DoBegin(s: State, i: nat, now: int, stale: Row): State {
    var usable := Open(stale);
    s.(pres := s.pres[i :=
      if usable == None then Done(now, Unreadable, false)
      else if !Due(usable.value, now) then Done(now, Presented(usable.value), false)
      else Waiting(now)])
  }

  /** What a caller under the lock can answer from the row alone; None is a refresh that has to be made. */
  function RowAnswer(row: Row, retryAfter: Option<int>, now: int): Option<Outcome> {
    var usable := Open(row);
    if usable == None then Some(Unreadable)
    else if !Due(usable.value, now) then Some(Presented(usable.value))
    else if retryAfter.Some? && now < retryAfter.value then Some(StillValid(usable.value, now, RefreshFailed))
    else if usable.value.refresh == None then Some(StillValid(usable.value, now, Expired))
    else None
  }

  /** The re-read under the lock: a presenter goes on to the vendor only when the row as it stands leaves no answer. */
  function DoReread(s: State, i: nat, ok: bool): State
    requires i in s.pres
  {
    var now := s.pres[i].now;
    var answer := if ok then RowAnswer(s.row, s.retryAfter, now) else Some(RefreshFailed);
    if answer.Some? || s.row.blob == None then Leave(s, i, if answer.Some? then answer.value else Unreadable, false)
    else s.(pres := s.pres[i := Ready(now, s.row.blob.value)])
  }

  function DoSend(s: State, i: nat): State
    requires i in s.pres && s.pres[i].Ready? && s.pres[i].base.tokens.refresh.Some?
  {
    var t := s.pres[i].base.tokens.refresh.value;
    s.(pres := s.pres[i := Sent(s.pres[i].now, s.pres[i].base)],
       sent := s.sent + {t}, doubled := s.doubled || t in s.spent)
  }

  /** The set a renewal makes of the old one: a new access token, and a new refresh token when the vendor rotates. */
  function Renewed(kept: TokenSet, next: nat, rotate: bool, at: int): TokenSet {
    TokenSet(Some(next), if rotate then Some(next + 1) else kept.refresh, Some(at), kept.resource)
  }

  function DoAnswer(s: State, i: nat, reply: Reply): State
    requires i in s.pres && s.pres[i].Sent? && s.pres[i].base.tokens.refresh.Some?
  {
    var p := s.pres[i];
    var kept := p.base.tokens;
    match reply
    case Renew(rotate, at) =>
      s.(pres := s.pres[i := Answered(p.now, p.base, Renewed(kept, s.next, rotate, at))], next := s.next + 2,
         spent := if rotate then s.spent + {kept.refresh.value} else s.spent)
    case Reject => s.(pres := s.pres[i := Rejected(p.now, p.base)])
    case Transient =>
      Leave(s.(retryAfter := Some(p.now + HOLD_OFF)), i, StillValid(kept, p.now, RefreshFailed), false)
    case Lost =>
      Leave(s.(retryAfter := Some(p.now + HOLD_OFF), spent := s.spent + {kept.refresh.value}), i,
            StillValid(kept, p.now, RefreshFailed), false)
    case Unsealed(rotate) =>
      Leave(s.(spent := if rotate then s.spent + {kept.refresh.value} else s.spent), i, Unreadable, false)
  }

  /** A compare-and-swap on the stored bytes; updated_at does not move. */
  function Swapped(s: State, next: TokenSet): State {
    s.(row := s.row.(blob := Some(Blob(s.next, next))), next := s.next + 1)
  }

  function DoSwap(s: State, i: nat, ok: bool): State
    requires i in s.pres && s.pres[i].Answered?
  {
    var p := s.pres[i];
    if ok && s.row.blob != Some(p.base) then s.(pres := s.pres[i := Missed(p.now, p.base, p.renewed)])
    else Leave(if ok then Swapped(s, p.renewed) else s, i, Presented(p.renewed), true)
  }

  /** What a re-read after a missed swap decides: None for the same refresh token, which is tried again; else the answer. */
  function TheirAnswer(row: Row, base: Blob, now: int): Option<Outcome> {
    var theirs := Open(row);
    if theirs == None then Some(Unreadable)
    else if theirs.value.refresh != base.tokens.refresh then Some(StillValid(theirs.value, now, Expired))
    else None
  }

  function DoRereadMiss(s: State, i: nat, ok: bool): State
    requires i in s.pres && s.pres[i].Missed?
  {
    var p := s.pres[i];
    var answer := if ok then TheirAnswer(s.row, p.base, p.now) else Some(Presented(p.renewed));
    if answer == None && s.row.blob.Some? then s.(pres := s.pres[i := Again(p.now, p.base, p.renewed, s.row.blob.value)])
    else Leave(s, i, if answer.Some? then answer.value else Unreadable, !ok)
  }

  function DoSwapAgain(s: State, i: nat, ok: bool): State
    requires i in s.pres && s.pres[i].Again?
  {
    var p := s.pres[i];
    Leave(if ok && s.row.blob == Some(p.again) then Swapped(s, p.renewed) else s,
          i, Presented(p.renewed), true)
  }

  /** A rejected grant: its refresh token is dropped from the row, best effort. */
  function DoDrop(s: State, i: nat, ok: bool): State
    requires i in s.pres && s.pres[i].Rejected?
  {
    var p := s.pres[i];
    var kept := p.base.tokens;
    Leave(if ok && s.row.blob == Some(p.base) then Swapped(s, kept.(refresh := None)) else s,
          i, StillValid(kept, p.now, Expired), false)
  }

  function DoExchange(s: State, j: nat, hasRefresh: bool, expiresAt: int): State
    requires j in s.signs && s.signs[j].Started?
  {
    var minted := TokenSet(Some(s.next), if hasRefresh then Some(s.next + 1) else None, Some(expiresAt), s.signs[j].resource);
    s.(signs := s.signs[j := Exchanged(s.signs[j].seen, minted)], next := s.next + 2)
  }

  /** ConnectUpstreamAuth's condition: the row is still the row that was seen, and still oauth. */
  predicate Unmoved(row: Row, seen: nat) {
    row.oauth && row.stamp == seen
  }

  function DoSignInStore(s: State, j: nat, ok: bool): State
    requires j in s.signs && s.signs[j].Storing?
  {
    var g := s.signs[j];
    var done := s.(lock := None, signs := s.signs[j := SignedIn]);
    if !ok || !Unmoved(s.row, g.seen) then done
    else done.(row := s.row.(blob := Some(Blob(s.next, g.tokens)), stamp := s.next + 1), next := s.next + 2)
  }

  function RevLeave(s: State, d: nat): State {
    s.(lock := None, revs := s.revs[d := Revoked])
  }

  function DoRevokeRead(s: State, d: nat, ok: bool): State {
    if !ok || !s.row.oauth || s.row.blob == None then RevLeave(s, d)
    else s.(revs := s.revs[d := Revoking(s.row.blob.value.tokens, s.row.stamp)])
  }

  /** The clear: conditioned on updated_at, not on the bytes. */
  function Cleared(s: State, read: TokenSet): State {
    s.(row := s.row.(blob := None, stamp := s.next), next := s.next + 1,
       misCleared := s.misCleared || Pair(s.row.blob) != (read.access, read.refresh))
  }

  function DoClear(s: State, d: nat, ok: bool): State
    requires d in s.revs && s.revs[d].Revoking?
  {
    var r := s.revs[d];
    if ok && !Unmoved(s.row, r.stamp) then s.(revs := s.revs[d := RevMissed(r.tokens)])
    else RevLeave(if ok then Cleared(s, r.tokens) else s, d)
  }

  function DoRevokeReread(s: State, d: nat, ok: bool): State
    requires d in s.revs && s.revs[d].RevMissed?
  {
    var r := s.revs[d];
    if !ok || !s.row.oauth || Pair(s.row.blob) != (r.tokens.access, r.tokens.refresh) then RevLeave(s, d)
    else s.(revs := s.revs[d := RevAgain(r.tokens, s.row.stamp)])
  }

  function DoClearAgain(s: State, d: nat, ok: bool): State
    requires d in s.revs && s.revs[d].RevAgain?
  {
    var r := s.revs[d];
    RevLeave(if ok && Unmoved(s.row, r.stamp) then Cleared(s, r.tokens) else s, d)
  }

  /** One PATCH, whole: a client identity replaces the blob; a new URL or a change into or out of oauth clears it. */
  function DoPatch(s: State, oauth: bool, url: nat, auth: PatchAuth): State {
    var blob :=
      if !oauth then None
      else if auth == ClientOnly then Some(Blob(s.next, TokenSet(None, None, None, url)))
      else if !s.row.oauth || url != s.row.url then None
      else s.row.blob;
    s.(row := Row(oauth, url, blob, s.next + 1), next := s.next + 2)
  }

  /** A re-wrap lands only on the bytes it read, so what it writes holds the same set. */
  function DoRekeySwap(s: State, k: nat): State
    requires k in s.rekeys
  {
    var blob := s.rekeys[k];
    var n := s.(rekeys := map x | x in s.rekeys && x != k :: s.rekeys[x]);
    if s.row.blob == Some(blob) then Swapped(n, blob.tokens) else n
  }

  /** Any other writer that does not take the lock: it moves updated_at, and writes a new token or any old one. */
  function DoEdit(s: State, tokens: TokenSet): State {
    s.(row := s.row.(blob := Some(Blob(s.next, tokens)), stamp := s.next + 1), next := s.next + 3)
  }

  function Apply(s: State, a: Step): State
    requires Enabled(s, a)
  {
    match a
    case Begin(i, now, stale) => DoBegin(s, i, now, stale)
    case Enter(i) => s.(lock := Some(P(i)), pres := s.pres[i := Entered(s.pres[i].now)])
    case GiveUp(i) => s.(pres := s.pres[i := Done(s.pres[i].now, RefreshFailed, false)])
    case Reread(i, ok) => DoReread(s, i, ok)
    case Send(i) => DoSend(s, i)
    case Answer(i, reply) => DoAnswer(s, i, reply)
    case Swap(i, ok) => DoSwap(s, i, ok)
    case RereadMiss(i, ok) => DoRereadMiss(s, i, ok)
    case SwapAgain(i, ok) => DoSwapAgain(s, i, ok)
    case DropToken(i, ok) => DoDrop(s, i, ok)
    case StartSignIn(j) => s.(signs := s.signs[j := Started(s.row.stamp, s.row.url)])
    case Exchange(j, hasRefresh, at) => DoExchange(s, j, hasRefresh, at)
    case SignInEnter(j) => s.(lock := Some(S(j)), signs := s.signs[j := Storing(s.signs[j].seen, s.signs[j].tokens)])
    case SignInStore(j, ok) => DoSignInStore(s, j, ok)
    case RevokeEnter(d) => s.(lock := Some(D(d)), revs := s.revs[d := RevEntered])
    case RevokeRead(d, ok) => DoRevokeRead(s, d, ok)
    case Clear(d, ok) => DoClear(s, d, ok)
    case RevokeReread(d, ok) => DoRevokeReread(s, d, ok)
    case ClearAgain(d, ok) => DoClearAgain(s, d, ok)
    case Patch(oauth, url, auth) => DoPatch(s, oauth, url, auth)
    case RekeyRead(k) => s.(rekeys := s.rekeys[k := s.row.blob.value])
    case RekeySwap(k) => DoRekeySwap(s, k)
    case Edit(tokens) => DoEdit(s, tokens)
  }

  /** A step that is not enabled changes nothing, so every sequence of steps is a run. */
  function Run(s: State, steps: seq<Step>): State
    decreases |steps|
  {
    if steps == [] then s
    else Run(if Enabled(s, steps[0]) then Apply(s, steps[0]) else s, steps[1..])
  }

  predicate Initial(s: State) {
    && s.lock == None && s.pres == map[] && s.signs == map[] && s.revs == map[] && s.rekeys == map[]
    && s.sent == {} && s.spent == {} && !s.doubled && !s.misCleared
    && s.row.stamp < s.next
    && (s.row.blob.Some? && s.row.blob.value.tokens.refresh.Some? ==> s.row.blob.value.tokens.refresh.value < s.next)
  }

  // ---- The invariant ----

  ghost predicate LocksOk(s: State) {
    && (forall i :: i in s.pres ==> (Holds(s.pres[i]) <==> s.lock == Some(P(i))))
    && (forall j :: j in s.signs ==> (s.signs[j].Storing? <==> s.lock == Some(S(j))))
    && (forall d :: d in s.revs ==> (RevHolds(s.revs[d]) <==> s.lock == Some(D(d))))
    && (s.lock.Some? ==>
          match s.lock.value
          case P(i) => i in s.pres
          case S(j) => j in s.signs
          case D(d) => d in s.revs)
  }

  /** A disconnect that will clear on a stamp it saw will find the pair it read under that stamp. */
  ghost predicate StampsOk(s: State) {
    && s.row.stamp < s.next
    && !s.misCleared
    && (forall d :: d in s.revs && (s.revs[d].Revoking? || s.revs[d].RevAgain?) ==>
          && s.revs[d].stamp < s.next
          && (s.row.stamp == s.revs[d].stamp ==> Pair(s.row.blob) == (s.revs[d].tokens.access, s.revs[d].tokens.refresh)))
  }

  function RowToken(s: State): Option<Token> {
    if s.row.blob == None then None else s.row.blob.value.tokens.refresh
  }

  /** The refresh token of a sign-in that can still be stored: it has not been, and updated_at has not moved since. */
  function Pending(s: State, j: nat): Option<Token> {
    if j in s.signs && (s.signs[j].Exchanged? || s.signs[j].Storing?) && s.signs[j].seen == s.row.stamp
    then s.signs[j].tokens.refresh else None
  }

  predicate PostAnswer(p: Presenter) {
    p.Answered? || p.Missed? || p.Again?
  }

  /** What the presenter holding the lock inside a refresh can rely on. */
  ghost predicate HolderOk(s: State, p: Presenter)
    requires InRefresh(p)
  {
    var f := p.base.tokens.refresh;
    && f.Some? && f.value < s.next
    && (forall j :: Pending(s, j).Some? ==> Pending(s, j) != f)
    && (PostAnswer(p) && p.renewed.refresh.Some? ==>
          && p.renewed.refresh.value < s.next && p.renewed.refresh.value !in s.spent
          && forall j :: Pending(s, j).Some? ==> Pending(s, j) != p.renewed.refresh)
    && (f.value in s.spent <==> Rotated(p))
    && (!p.Ready? ==> f.value in s.sent)
  }

  /** The vendor has answered with another refresh token than the one it was sent. */
  predicate Rotated(p: Presenter) {
    PostAnswer(p) && p.renewed.refresh != p.base.tokens.refresh
  }

  predicate Refreshing(s: State) {
    s.lock.Some? && s.lock.value.P? && s.lock.value.p in s.pres && InRefresh(s.pres[s.lock.value.p])
  }

  function Refresher(s: State): Presenter
    requires Refreshing(s)
  {
    s.pres[s.lock.value.p]
  }

  /** Tokens of sign-ins not yet stored are new to everyone else, and to each other. */
  ghost predicate PendingsOk(s: State) {
    && (forall j :: Pending(s, j).Some? ==>
          Pending(s, j).value < s.next && Pending(s, j).value !in s.sent && RowToken(s) != Pending(s, j))
    && (forall j, k :: j != k && Pending(s, j).Some? ==> Pending(s, j) != Pending(s, k))
  }

  /** No sign-in waits for an updated_at that is still to come. */
  ghost predicate SeenOk(s: State) {
    forall j :: j in s.signs && !s.signs[j].SignedIn? ==> s.signs[j].seen < s.next
  }

  /** The row holds a spent token and no refresh is under way that will replace it. */
  predicate Astray(s: State) {
    && RowToken(s).Some? && RowToken(s).value in s.spent
    && !(Refreshing(s) && PostAnswer(Refresher(s)) && Refresher(s).base.tokens.refresh == RowToken(s))
  }

  ghost predicate TokensOk(s: State) {
    && !s.doubled
    && (forall t :: t in s.sent ==> t < s.next)
    && s.spent <= s.sent
    && (RowToken(s).Some? ==> RowToken(s).value < s.next)
    && SeenOk(s) && PendingsOk(s)
    && (Refreshing(s) ==> HolderOk(s, Refresher(s)))
    && !Astray(s)
  }

  // ---- The steps that lead a spent token astray ----

  /** The row still holds the token this presenter's answer has spent. */
  predicate Exposed(s: State, p: Presenter) {
    Rotated(p) && RowToken(s) == p.base.tokens.refresh
  }

  /** The vendor has rotated, and its answer goes no further. */
  predicate Wasted(reply: Reply) {
    reply.Lost? || (reply.Unsealed? && reply.rotate)
  }

  /** A presenter releases the lock over a row that still holds the token it spent. */
  predicate LeavesSpent(s: State, a: Step)
    requires Enabled(s, a)
  {
    match a
    case Answer(i, reply) => Wasted(reply) && RowToken(s) == s.pres[i].base.tokens.refresh
    case Swap(i, ok) => !ok && Exposed(s, s.pres[i])
    case RereadMiss(i, ok) => (!ok || Open(s.row) == None) && Exposed(s, s.pres[i])
    case SwapAgain(i, ok) => (!ok || s.row.blob != Some(s.pres[i].again)) && Exposed(s, s.pres[i])
    case _ => false
  }

  /** A writer outside the lock stores a spent token that no refresh under way is about to replace. */
  predicate PutsBack(s: State, tokens: TokenSet) {
    && tokens.refresh.Some? && tokens.refresh.value in s.spent
    && !(Refreshing(s) && PostAnswer(Refresher(s)) && Refresher(s).base.tokens.refresh == tokens.refresh)
  }

  predicate Excuse(s: State, a: Step)
    requires Enabled(s, a)
  {
    LeavesSpent(s, a) || (a.Edit? && PutsBack(s, a.tokens))
  }

  /** A run none of whose steps is one of these. */
  predicate NoExcuse(s: State, steps: seq<Step>)
    decreases |steps|
  {
    if steps == [] then true
    else if Enabled(s, steps[0]) then !Excuse(s, steps[0]) && NoExcuse(Apply(s, steps[0]), steps[1..])
    else NoExcuse(s, steps[1..])
  }

  /** A stored token is never presented once it has lapsed; what a refresh minted is presented as it came. */
  ghost predicate OutcomesOk(s: State) {
    forall i :: i in s.pres && s.pres[i].Done? && s.pres[i].outcome.Presented? && !s.pres[i].minted ==>
      var tokens := s.pres[i].outcome.tokens; tokens.expiresAt == None || tokens.expiresAt.value > s.pres[i].now
  }

  ghost predicate Inv(s: State) {
    Base(s) && TokensOk(s)
  }

  // ---- Every step keeps the lock discipline ----

  lemma PresenterLocks(s: State, n: State, i: nat)
    requires LocksOk(s) && i in n.pres && n.pres == s.pres[i := n.pres[i]] && n.signs == s.signs && n.revs == s.revs
    requires var was := i in s.pres && Holds(s.pres[i]);
             || (n.lock == s.lock && was == Holds(n.pres[i]))
             || (n.lock == None && was && !Holds(n.pres[i]))
             || (s.lock == None && n.lock == Some(P(i)) && Holds(n.pres[i]))
    ensures LocksOk(n)
  {
    hide Holds;
  }

  lemma SignInLocks(s: State, n: State, j: nat)
    requires LocksOk(s) && j in n.signs && n.signs == s.signs[j := n.signs[j]] && n.pres == s.pres && n.revs == s.revs
    requires var was := j in s.signs && s.signs[j].Storing?;
             || (n.lock == s.lock && was == n.signs[j].Storing?)
             || (n.lock == None && was && !n.signs[j].Storing?)
             || (s.lock == None && n.lock == Some(S(j)) && n.signs[j].Storing?)
    ensures LocksOk(n)
  {
    hide Holds, RevHolds;
  }

  lemma RevokeLocks(s: State, n: State, d: nat)
    requires LocksOk(s) && d in n.revs && n.revs == s.revs[d := n.revs[d]] && n.pres == s.pres && n.signs == s.signs
    requires var was := d in s.revs && RevHolds(s.revs[d]);
             || (n.lock == s.lock && was == RevHolds(n.revs[d]))
             || (n.lock == None && was && !RevHolds(n.revs[d]))
             || (s.lock == None && n.lock == Some(D(d)) && RevHolds(n.revs[d]))
    ensures LocksOk(n)
  {
    hide Holds, RevHolds;
  }

  /** The part of the invariant that needs no assumption about the store. */
  ghost predicate Base(s: State) {
    LocksOk(s) && StampsOk(s) && OutcomesOk(s)
  }

  ghost predicate Fair(outcome: Outcome, minted: bool, now: int) {
    outcome.Presented? && !minted ==> outcome.tokens.expiresAt == None || outcome.tokens.expiresAt.value > now
  }

  lemma LeaveKeeps(s: State, i: nat, outcome: Outcome, minted: bool)
    requires Base(s) && i in s.pres && Holds(s.pres[i]) && Fair(outcome, minted, s.pres[i].now)
    ensures Base(Leave(s, i, outcome, minted))
  {
    PresenterLocks(s, Leave(s, i, outcome, minted), i);
    hide LocksOk;
  }

  lemma MoveKeeps(s: State, n: State, i: nat)
    requires Base(s) && i in n.pres && n.pres == s.pres[i := n.pres[i]]
    requires n.row == s.row && n.next >= s.next && n.signs == s.signs && n.revs == s.revs && n.misCleared == s.misCleared
    requires n.lock == s.lock && (i in s.pres && Holds(s.pres[i])) == Holds(n.pres[i])
    requires n.pres[i].Done? ==> Fair(n.pres[i].outcome, n.pres[i].minted, n.pres[i].now)
    ensures Base(n)
  {
    PresenterLocks(s, n, i);
    hide LocksOk;
  }

  lemma SwappedKeeps(s: State, next: TokenSet)
    requires Base(s)
    requires (s.lock.Some? && s.lock.value.P?) || (s.row.blob.Some? && s.row.blob.value.tokens == next)
    ensures Base(Swapped(s, next))
  {
  }

  lemma SameKeeps(s: State, n: State)
    requires Base(s)
    requires n.row == s.row && n.next >= s.next && n.lock == s.lock && n.pres == s.pres && n.signs == s.signs && n.revs == s.revs
    requires n.misCleared == s.misCleared
    ensures Base(n)
  {
  }

  lemma RowAnswerFair(row: Row, retryAfter: Option<int>, base: Blob, now: int)
    ensures var a := RowAnswer(row, retryAfter, now); a.Some? ==> Fair(a.value, false, now)
    ensures var a := TheirAnswer(row, base, now); a.Some? ==> Fair(a.value, false, now)
    ensures RowAnswer(row, retryAfter, now) == None || TheirAnswer(row, base, now) == None ==> row.blob.Some?
  {
  }

  lemma StillValidFair(tokens: TokenSet, now: int, lapsed: Outcome)
    requires !lapsed.Presented?
    ensures Fair(StillValid(tokens, now, lapsed), false, now)
  {
  }

  lemma PresenterBase(s: State, a: Step)
    requires Base(s) && Enabled(s, a)
    requires a.Begin? || a.Enter? || a.GiveUp? || a.Reread? || a.Send?
    ensures Base(Apply(s, a))
  {
    hide Base;
    var n := Apply(s, a);
    match a
    case Begin(i, now, stale) =>
      MoveKeeps(s, n, i);
    case Enter(i) =>
      EnterKeeps(s, i);
    case GiveUp(i) =>
      MoveKeeps(s, n, i);
    case Reread(i, ok) =>
      RowAnswerFair(s.row, s.retryAfter, Blob(0, TokenSet(None, None, None, 0)), s.pres[i].now);
      hide RowAnswer;
      if n.pres[i].Done? { LeaveKeeps(s, i, n.pres[i].outcome, false); } else { MoveKeeps(s, n, i); }
    case Send(i) =>
      MoveKeeps(s, n, i);
    case _ =>
  }

  lemma EnterKeeps(s: State, i: nat)
    requires Base(s) && i in s.pres && s.pres[i].Waiting? && s.lock == None
    ensures Base(s.(lock := Some(P(i)), pres := s.pres[i := Entered(s.pres[i].now)]))
  {
    PresenterLocks(s, s.(lock := Some(P(i)), pres := s.pres[i := Entered(s.pres[i].now)]), i);
    hide LocksOk;
  }

  /** The state behind an answer that ends the refresh, before the lock is released. */
  function Unanswered(s: State, i: nat, reply: Reply): State
    requires i in s.pres && s.pres[i].Sent? && s.pres[i].base.tokens.refresh.Some?
  {
    var p := s.pres[i];
    s.(retryAfter := if reply.Unsealed? then s.retryAfter else Some(p.now + HOLD_OFF),
       spent := if Wasted(reply) then s.spent + {p.base.tokens.refresh.value} else s.spent)
  }

  lemma AnswerBase(s: State, i: nat, reply: Reply)
    requires Base(s) && i in s.pres && s.pres[i].Sent? && s.pres[i].base.tokens.refresh.Some?
    ensures Base(DoAnswer(s, i, reply))
  {
    hide Base;
    var n, p := DoAnswer(s, i, reply), s.pres[i];
    if reply.Renew? || reply.Reject? {
      MoveKeeps(s, n, i);
    } else {
      var t := Unanswered(s, i, reply);
      var outcome := if reply.Unsealed? then Unreadable else StillValid(p.base.tokens, p.now, RefreshFailed);
      StillValidFair(p.base.tokens, p.now, RefreshFailed);
      SameKeeps(s, t);
      LeaveKeeps(t, i, outcome, false);
    }
  }

  lemma SwapBase(s: State, i: nat, ok: bool)
    requires Base(s) && i in s.pres && s.pres[i].Answered?
    ensures Base(DoSwap(s, i, ok))
  {
    assert s.lock == Some(P(i));
    hide Base;
    var n, p := DoSwap(s, i, ok), s.pres[i];
    if ok && s.row.blob != Some(p.base) {
      MoveKeeps(s, n, i);
    } else {
      var t := if ok then Swapped(s, p.renewed) else s;
      if ok { SwappedKeeps(s, p.renewed); }
      LeaveKeeps(t, i, Presented(p.renewed), true);
    }
  }

  lemma RereadMissBase(s: State, i: nat, ok: bool)
    requires Base(s) && i in s.pres && s.pres[i].Missed?
    ensures Base(DoRereadMiss(s, i, ok))
  {
    var n, p := DoRereadMiss(s, i, ok), s.pres[i];
    RowAnswerFair(s.row, None, p.base, p.now);
    hide Base, TheirAnswer;
    if n.pres[i].Done? {
      LeaveKeeps(s, i, n.pres[i].outcome, !ok);
    } else {
      MoveKeeps(s, n, i);
    }
  }

  lemma SwapAgainBase(s: State, i: nat, ok: bool)
    requires Base(s) && i in s.pres && s.pres[i].Again?
    ensures Base(DoSwapAgain(s, i, ok))
  {
    assert s.lock == Some(P(i));
    hide Base;
    var p := s.pres[i];
    SwappedKeeps(s, p.renewed);
    var t := if ok && s.row.blob == Some(p.again) then Swapped(s, p.renewed) else s;
    LeaveKeeps(t, i, Presented(p.renewed), true);
  }

  lemma DropBase(s: State, i: nat, ok: bool)
    requires Base(s) && i in s.pres && s.pres[i].Rejected?
    ensures Base(DoDrop(s, i, ok))
  {
    assert s.lock == Some(P(i));
    hide Base;
    var p := s.pres[i];
    var dropped := p.base.tokens.(refresh := None);
    SwappedKeeps(s, dropped);
    StillValidFair(p.base.tokens, p.now, Expired);
    var t := if ok && s.row.blob == Some(p.base) then Swapped(s, dropped) else s;
    LeaveKeeps(t, i, StillValid(p.base.tokens, p.now, Expired), false);
  }

  lemma SignInBase(s: State, a: Step)
    requires Base(s) && Enabled(s, a) && (a.StartSignIn? || a.Exchange? || a.SignInEnter? || a.SignInStore?)
    ensures Base(Apply(s, a))
  {
    SignInLocks(s, Apply(s, a), a.j);
    hide LocksOk, OutcomesOk, Pair;
    if a.SignInStore? { NoRevoke(s, a.j); }
  }

  /** While a sign-in holds the lock no disconnect is between its read and its clear. */
  lemma NoRevoke(s: State, j: nat)
    requires LocksOk(s) && j in s.signs && s.signs[j].Storing?
    ensures forall d :: d in s.revs ==> !RevHolds(s.revs[d])
  {
  }

  lemma RevokeLeaves(s: State, d: nat)
    requires Base(s) && d in s.revs && RevHolds(s.revs[d])
    ensures Base(RevLeave(s, d))
  {
    RevokeLocks(s, RevLeave(s, d), d);
    hide LocksOk;
  }

  lemma RevokeMoves(s: State, n: State, d: nat)
    requires Base(s) && d in n.revs && n == s.(revs := s.revs[d := n.revs[d]], lock := n.lock)
    requires RevHolds(n.revs[d]) && n.lock == Some(D(d)) && (s.lock == None || (s.lock == n.lock && d in s.revs && RevHolds(s.revs[d])))
    requires n.revs[d].Revoking? || n.revs[d].RevAgain? ==>
               n.revs[d].stamp == s.row.stamp && Pair(s.row.blob) == (n.revs[d].tokens.access, n.revs[d].tokens.refresh)
    ensures Base(n)
  {
    RevokeLocks(s, n, d);
    hide LocksOk, Pair;
  }

  /** A clear that lands finds the pair it read: nobody but the holder moves the row without moving its stamp too. */
  lemma ClearKeeps(s: State, d: nat)
    requires Base(s) && d in s.revs && (s.revs[d].Revoking? || s.revs[d].RevAgain?) && Unmoved(s.row, s.revs[d].stamp)
    ensures Base(Cleared(s, s.revs[d].tokens))
  {
  }

  lemma RevokeBase(s: State, a: Step)
    requires Base(s) && Enabled(s, a) && (a.RevokeEnter? || a.RevokeRead? || a.RevokeReread?)
    ensures Base(Apply(s, a))
  {
    var n, d := Apply(s, a), a.d;
    assert d in s.revs && RevHolds(s.revs[d]) ==> s.lock == Some(D(d));
    hide Base, Pair;
    PairOf(s.row.blob);
    if !RevHolds(n.revs[d]) { RevokeLeaves(s, d); } else { RevokeMoves(s, n, d); }
  }

  lemma PairOf(blob: Option<Blob>)
    ensures blob.Some? ==> Pair(blob) == (blob.value.tokens.access, blob.value.tokens.refresh)
  {
  }

  lemma ClearBase(s: State, d: nat, ok: bool)
    requires Base(s) && d in s.revs
    ensures s.revs[d].Revoking? ==> Base(DoClear(s, d, ok))
    ensures s.revs[d].RevAgain? ==> Base(DoClearAgain(s, d, ok))
  {
    assert RevHolds(s.revs[d]) ==> s.lock == Some(D(d));
    hide Base, Pair;
    if s.revs[d].Revoking? || s.revs[d].RevAgain? {
      var r := s.revs[d];
      if Unmoved(s.row, r.stamp) {
        ClearKeeps(s, d);
        RevokeLeaves(Cleared(s, r.tokens), d);
      } else if s.revs[d].Revoking? {
        RevokeMoves(s, s.(revs := s.revs[d := RevMissed(r.tokens)]), d);
      }
      RevokeLeaves(s, d);
    }
  }

  lemma RekeyBase(s: State, k: nat)
    requires Base(s) && k in s.rekeys
    ensures Base(DoRekeySwap(s, k))
  {
    var blob := s.rekeys[k];
    var n := DoRekeySwap(s, k);
    if s.row.blob == Some(blob) { SwappedKeeps(s, blob.tokens); }
    hide Base, Holds;
    SameKeeps(if s.row.blob == Some(blob) then Swapped(s, blob.tokens) else s, n);
  }

  lemma StampMoves(s: State, n: State)
    requires Base(s)
    requires n.lock == s.lock && n.pres == s.pres && n.signs == s.signs && n.revs == s.revs && n.misCleared == s.misCleared
    requires s.next <= n.row.stamp < n.next
    ensures Base(n)
  {
    hide Holds, Pair;
  }

  lemma OtherBase(s: State, a: Step)
    requires Base(s) && Enabled(s, a) && (a.Patch? || a.RekeyRead? || a.RekeySwap? || a.Edit?)
    ensures Base(Apply(s, a))
  {
    hide Base;
    if a.RekeySwap? {
      RekeyBase(s, a.k);
      hide DoRekeySwap;
    } else if a.RekeyRead? {
      SameKeeps(s, Apply(s, a));
    } else {
      StampMoves(s, Apply(s, a));
    }
  }

  lemma StepBase(s: State, a: Step)
    requires Base(s) && Enabled(s, a)
    ensures Base(Apply(s, a))
  {
    hide Base, DoAnswer, DoSwap, DoRereadMiss, DoSwapAgain, DoDrop, DoClear, DoClearAgain;
    match a
    case Answer(i, reply) => AnswerBase(s, i, reply);
    case Swap(i, ok) => SwapBase(s, i, ok);
    case RereadMiss(i, ok) => RereadMissBase(s, i, ok);
    case SwapAgain(i, ok) => SwapAgainBase(s, i, ok);
    case DropToken(i, ok) => DropBase(s, i, ok);
    case Clear(d, ok) => ClearBase(s, d, ok);
    case ClearAgain(d, ok) => ClearBase(s, d, ok);
    case _ =>
      if a.StartSignIn? || a.Exchange? || a.SignInEnter? || a.SignInStore? { SignInBase(s, a); }
      else if a.RevokeEnter? || a.RevokeRead? || a.RevokeReread? { RevokeBase(s, a); }
      else if a.Patch? || a.RekeyRead? || a.RekeySwap? || a.Edit? { OtherBase(s, a); }
      else { PresenterBase(s, a); }
  }

  // ---- Every step keeps the accounting of refresh tokens ----

  lemma TokenFrame(s: State, n: State)
    requires TokensOk(s)
    requires n.row == s.row && n.sent == s.sent && n.spent == s.spent && n.next >= s.next
    requires n.doubled == s.doubled
    requires SeenOk(n) && forall j :: Pending(n, j) == Pending(s, j)
    requires Refreshing(n) <==> Refreshing(s)
    requires Refreshing(n) ==> Refresher(n) == Refresher(s)
    ensures TokensOk(n)
  {
    hide Pending, PostAnswer;
  }

  /** A presenter leaves the lock; the row must not be left holding a spent token. */
  lemma LeaveTokens(s: State, i: nat, outcome: Outcome, minted: bool)
    requires LocksOk(s) && i in s.pres && Holds(s.pres[i])
    requires !s.doubled && (forall t :: t in s.sent ==> t < s.next) && s.spent <= s.sent
    requires RowToken(s).Some? ==> RowToken(s).value < s.next && RowToken(s).value !in s.spent
    requires SeenOk(s) && PendingsOk(s)
    ensures TokensOk(Leave(s, i, outcome, minted))
  {
    hide LocksOk, Holds;
    var n := Leave(s, i, outcome, minted);
    assert forall j :: Pending(n, j) == Pending(s, j);
    assert RowToken(n) == RowToken(s) && !Refreshing(n);
    hide Pending, RowToken;
  }

  lemma RereadTokens(s: State, i: nat, ok: bool)
    requires LocksOk(s) && TokensOk(s) && i in s.pres && s.pres[i].Entered?
    ensures TokensOk(DoReread(s, i, ok))
  {
    assert s.lock == Some(P(i)) && !Refreshing(s);
    var n := DoReread(s, i, ok);
    if n.pres[i].Done? {
      hide RowAnswer;
      LeaveTokens(s, i, n.pres[i].outcome, false);
    } else {
      assert RowToken(n) == RowToken(s) && forall j :: Pending(n, j) == Pending(s, j);
      assert n.pres[i] == Ready(s.pres[i].now, s.row.blob.value);
      hide LocksOk, Pending;
      assert HolderOk(n, n.pres[i]);
    }
  }

  lemma SendTokens(s: State, i: nat)
    requires LocksOk(s) && TokensOk(s) && i in s.pres && s.pres[i].Ready? && s.pres[i].base.tokens.refresh.Some?
    ensures TokensOk(DoSend(s, i))
  {
    assert s.lock == Some(P(i)) && Refreshing(s) && Refresher(s) == s.pres[i];
    var n := DoSend(s, i);
    assert RowToken(n) == RowToken(s) && forall j :: Pending(n, j) == Pending(s, j);
    hide LocksOk, Pending, RowToken;
    assert HolderOk(n, n.pres[i]);
  }

  lemma UnansweredTokens(s: State, i: nat, reply: Reply)
    requires LocksOk(s) && TokensOk(s) && i in s.pres && s.pres[i].Sent? && s.pres[i].base.tokens.refresh.Some?
    requires !reply.Renew? && !reply.Reject? && !LeavesSpent(s, Answer(i, reply))
    ensures TokensOk(DoAnswer(s, i, reply))
  {
    hide StillValid;
    var p, t := s.pres[i], Unanswered(s, i, reply);
    assert s.lock == Some(P(i)) && Refreshing(s) && Refresher(s) == p;
    assert RowToken(t) == RowToken(s) && forall j :: Pending(t, j) == Pending(s, j);
    hide Pending, RowToken;
    LeaveTokens(t, i, if reply.Unsealed? then Unreadable else StillValid(p.base.tokens, p.now, RefreshFailed), false);
  }

  lemma AnswerTokens(s: State, i: nat, reply: Reply)
    requires LocksOk(s) && TokensOk(s) && i in s.pres && s.pres[i].Sent? && s.pres[i].base.tokens.refresh.Some?
    requires !LeavesSpent(s, Answer(i, reply))
    ensures TokensOk(DoAnswer(s, i, reply))
  {
    if reply.Renew? || reply.Reject? {
      assert s.lock == Some(P(i)) && Refreshing(s) && Refresher(s) == s.pres[i];
      var n := DoAnswer(s, i, reply);
      assert RowToken(n) == RowToken(s) && forall j :: Pending(n, j) == Pending(s, j);
      hide LocksOk, Pending, RowToken, Leave;
      assert HolderOk(n, n.pres[i]);
    } else {
      UnansweredTokens(s, i, reply);
      hide *;
    }
  }

  /** The renewed set goes into the row: its refresh token is no spent one. */
  lemma SwappedTokens(s: State, i: nat)
    requires LocksOk(s) && TokensOk(s) && i in s.pres && PostAnswer(s.pres[i])
    ensures TokensOk(Leave(Swapped(s, s.pres[i].renewed), i, Presented(s.pres[i].renewed), true))
  {
    assert s.lock == Some(P(i)) && Refreshing(s) && Refresher(s) == s.pres[i];
    var t := Swapped(s, s.pres[i].renewed);
    assert forall j :: Pending(t, j) == Pending(s, j);
    assert RowToken(t) == s.pres[i].renewed.refresh;
    assert LocksOk(t);
    hide LocksOk, Pending, RowToken;
    LeaveTokens(t, i, Presented(s.pres[i].renewed), true);
  }

  lemma SwapTokens(s: State, i: nat, ok: bool)
    requires LocksOk(s) && TokensOk(s) && i in s.pres && s.pres[i].Answered? && !(!ok && Exposed(s, s.pres[i]))
    ensures TokensOk(DoSwap(s, i, ok))
  {
    assert s.lock == Some(P(i)) && Refreshing(s) && Refresher(s) == s.pres[i];
    SwappedTokens(s, i);
    if !ok {
      LeaveTokens(s, i, Presented(s.pres[i].renewed), true);
    } else if s.row.blob != Some(s.pres[i].base) {
      var n := DoSwap(s, i, true);
      assert RowToken(n) == RowToken(s) && forall j :: Pending(n, j) == Pending(s, j);
      hide LocksOk, Pending, RowToken;
      assert HolderOk(n, n.pres[i]);
    }
  }

  lemma RereadMissTokens(s: State, i: nat, ok: bool)
    requires LocksOk(s) && TokensOk(s) && i in s.pres && s.pres[i].Missed? && !((!ok || Open(s.row) == None) && Exposed(s, s.pres[i]))
    ensures TokensOk(DoRereadMiss(s, i, ok))
  {
    assert s.lock == Some(P(i)) && Refreshing(s) && Refresher(s) == s.pres[i];
    var n := DoRereadMiss(s, i, ok);
    if n.pres[i].Done? {
      assert !Exposed(s, s.pres[i]);
      hide TheirAnswer;
      LeaveTokens(s, i, n.pres[i].outcome, !ok);
    } else {
      assert RowToken(n) == RowToken(s) && forall j :: Pending(n, j) == Pending(s, j);
      hide LocksOk, Pending, TheirAnswer;
      assert HolderOk(n, n.pres[i]);
    }
  }

  lemma SwapAgainTokens(s: State, i: nat, ok: bool)
    requires LocksOk(s) && TokensOk(s) && i in s.pres && s.pres[i].Again?
    requires !((!ok || s.row.blob != Some(s.pres[i].again)) && Exposed(s, s.pres[i]))
    ensures TokensOk(DoSwapAgain(s, i, ok))
  {
    SwappedTokens(s, i);
    if !ok || s.row.blob != Some(s.pres[i].again) {
      assert s.lock == Some(P(i)) && Refreshing(s) && Refresher(s) == s.pres[i];
      LeaveTokens(s, i, Presented(s.pres[i].renewed), true);
    }
  }

  lemma DropTokens(s: State, i: nat, ok: bool)
    requires LocksOk(s) && TokensOk(s) && i in s.pres && s.pres[i].Rejected?
    ensures TokensOk(DoDrop(s, i, ok))
  {
    assert s.lock == Some(P(i)) && Refreshing(s) && Refresher(s) == s.pres[i];
    var p := s.pres[i];
    hide StillValid;
    var t := if ok && s.row.blob == Some(p.base) then Swapped(s, p.base.tokens.(refresh := None)) else s;
    assert forall j :: Pending(t, j) == Pending(s, j);
    assert RowToken(t) == None || RowToken(t) == RowToken(s);
    assert LocksOk(t);
    hide LocksOk, Pending, RowToken;
    LeaveTokens(t, i, StillValid(p.base.tokens, p.now, Expired), false);
  }

  lemma ExchangeTokens(s: State, j: nat, hasRefresh: bool, at: int)
    requires TokensOk(s) && j in s.signs && s.signs[j].Started?
    ensures TokensOk(DoExchange(s, j, hasRefresh, at))
  {
    var n := DoExchange(s, j, hasRefresh, at);
    assert RowToken(n) == RowToken(s) && forall k :: k != j ==> Pending(n, k) == Pending(s, k);
    assert Pending(n, j) == (if hasRefresh && s.signs[j].seen == s.row.stamp then Some(s.next + 1) else None);
    assert Refreshing(n) <==> Refreshing(s);
    assert Refreshing(n) ==> Refresher(n) == Refresher(s);
    hide Pending, RowToken, Refreshing;
  }

  lemma SignInTokens(s: State, j: nat, ok: bool)
    requires LocksOk(s) && TokensOk(s) && j in s.signs && s.signs[j].Storing?
    ensures TokensOk(DoSignInStore(s, j, ok))
  {
    var n := DoSignInStore(s, j, ok);
    assert !Refreshing(s) && !Refreshing(n);
    if n.row == s.row {
      assert forall k :: k != j ==> Pending(n, k) == Pending(s, k);
      assert Pending(n, j) == None;
      hide Pending, RowToken, Refreshing;
    } else {
      assert forall k :: Pending(n, k) == None;
      assert RowToken(n) == Pending(s, j);
      hide Pending, RowToken, Refreshing;
    }
  }

  /** A row rewritten while no refresh is under way: what it holds is what it held, or nothing. */
  lemma QuietTokens(s: State, n: State)
    requires TokensOk(s) && !Refreshing(s) && !Refreshing(n)
    requires n.sent == s.sent && n.spent == s.spent && n.next >= s.next && n.doubled == s.doubled && n.signs == s.signs
    requires RowToken(n) == None || RowToken(n) == RowToken(s)
    requires n.row.stamp == s.row.stamp || n.row.stamp >= s.next
    ensures TokensOk(n)
  {
    assert forall j :: Pending(n, j) == Pending(s, j) || Pending(n, j) == None;
    hide Pending, RowToken, Refreshing;
  }

  lemma RevokeShape(s: State, d: nat, ok: bool)
    ensures RevokeOnly(s, DoRevokeRead(s, d, ok))
    ensures d in s.revs && s.revs[d].RevMissed? ==> RevokeOnly(s, DoRevokeReread(s, d, ok))
  {
    hide Pair;
  }

  lemma ClearShape(s: State, d: nat, ok: bool)
    ensures d in s.revs && s.revs[d].Revoking? ==> RevokeOnly(s, DoClear(s, d, ok))
    ensures d in s.revs && s.revs[d].RevAgain? ==> RevokeOnly(s, DoClearAgain(s, d, ok))
  {
    hide Pair;
  }

  /** What a disconnect's step can touch. */
  ghost predicate RevokeOnly(s: State, n: State) {
    && n.sent == s.sent && n.spent == s.spent && n.next >= s.next && n.doubled == s.doubled && n.signs == s.signs
    && n.pres == s.pres && (n.lock == s.lock || n.lock == None)
    && (n.row == s.row || (n.row.blob == None && n.row.stamp >= s.next))
  }

  lemma RevokeQuiet(s: State, n: State, d: nat)
    requires TokensOk(s) && RevokeOnly(s, n) && s.lock == Some(D(d))
    ensures TokensOk(n)
  {
    hide TokensOk;
    QuietTokens(s, n);
  }

  /** A step of a disconnect inside the lock. */
  lemma RevokeInside(s: State, a: Step)
    requires LocksOk(s) && Enabled(s, a)
    requires a.RevokeRead? || a.Clear? || a.RevokeReread? || a.ClearAgain?
    ensures RevokeOnly(s, Apply(s, a)) && s.lock == Some(D(a.d))
  {
    assert a.d in s.revs && RevHolds(s.revs[a.d]) ==> s.lock == Some(D(a.d));
    RevokeShape(s, a.d, a.ok);
    ClearShape(s, a.d, a.ok);
    hide LocksOk, RevokeOnly, DoRevokeRead, DoClear, DoRevokeReread, DoClearAgain;
  }

  lemma RevokeTokens(s: State, a: Step)
    requires LocksOk(s) && TokensOk(s) && Enabled(s, a)
    requires a.RevokeEnter? || a.RevokeRead? || a.Clear? || a.RevokeReread? || a.ClearAgain?
    ensures TokensOk(Apply(s, a))
  {
    hide LocksOk, TokensOk;
    if a.RevokeEnter? {
      QuietTokens(s, Apply(s, a));
    } else {
      RevokeInside(s, a);
      hide Apply, Enabled;
      RevokeQuiet(s, Apply(s, a), a.d);
    }
  }

  /** A re-wrap puts the same set under other bytes. */
  lemma RekeyTokens(s: State, k: nat)
    requires TokensOk(s) && k in s.rekeys
    ensures TokensOk(DoRekeySwap(s, k))
  {
    var n := DoRekeySwap(s, k);
    assert RowToken(n) == RowToken(s) && forall j :: Pending(n, j) == Pending(s, j);
    assert Refreshing(n) <==> Refreshing(s);
    assert Refreshing(n) ==> Refresher(n) == Refresher(s);
    hide Pending, Refreshing, RowToken;
  }

  /** An edit moves updated_at, so no sign-in under way can be stored any more. */
  lemma EditTokens(s: State, tokens: TokenSet)
    requires TokensOk(s) && s.row.oauth && !PutsBack(s, tokens) && (tokens.refresh.Some? ==> tokens.refresh.value <= s.next + 2)
    ensures TokensOk(DoEdit(s, tokens))
  {
    var n := DoEdit(s, tokens);
    assert RowToken(n) == tokens.refresh;
    assert forall j :: Pending(n, j) == None;
    assert Refreshing(n) <==> Refreshing(s);
    assert Refreshing(n) ==> Refresher(n) == Refresher(s);
    hide Pending, RowToken, Refreshing;
  }

  lemma NewSeen(s: State, a: Step)
    requires SeenOk(s) && s.row.stamp < s.next && Enabled(s, a)
    requires a.Begin? || a.Enter? || a.GiveUp? || a.StartSignIn? || a.SignInEnter? || a.RekeyRead?
    ensures SeenOk(Apply(s, a))
  {
    hide Open, Due;
  }

  lemma PlainTokens(s: State, a: Step)
    requires LocksOk(s) && s.row.stamp < s.next && TokensOk(s) && Enabled(s, a)
    requires a.Begin? || a.Enter? || a.GiveUp? || a.StartSignIn? || a.SignInEnter? || a.RekeyRead?
    ensures TokensOk(Apply(s, a))
  {
    var n := Apply(s, a);
    assert forall j :: Pending(n, j) == Pending(s, j);
    assert Refreshing(n) <==> Refreshing(s);
    assert Refreshing(n) ==> Refresher(n) == Refresher(s);
    assert SeenOk(n) by { NewSeen(s, a); }
    hide Pending, Refreshing, LocksOk, TokensOk, Open, Due, SeenOk;
    TokenFrame(s, n);
  }

  lemma StepTokens(s: State, a: Step)
    requires LocksOk(s) && s.row.stamp < s.next && TokensOk(s) && Enabled(s, a) && !Excuse(s, a)
    ensures TokensOk(Apply(s, a))
  {
    match a
    case Reread(i, ok) => RereadTokens(s, i, ok);
    case Send(i) => SendTokens(s, i);
    case Answer(i, reply) => AnswerTokens(s, i, reply);
    case Swap(i, ok) => SwapTokens(s, i, ok);
    case RereadMiss(i, ok) => RereadMissTokens(s, i, ok);
    case SwapAgain(i, ok) => SwapAgainTokens(s, i, ok);
    case DropToken(i, ok) => DropTokens(s, i, ok);
    case Exchange(j, hasRefresh, at) => ExchangeTokens(s, j, hasRefresh, at);
    case SignInStore(j, ok) => SignInTokens(s, j, ok);
    case Patch(_, _, _) => hide LocksOk; QuietTokens(s, Apply(s, a));
    case RekeySwap(k) => RekeyTokens(s, k);
    case Edit(tokens) => EditTokens(s, tokens);
    case _ =>
      hide TokensOk, LocksOk;
      if a.RevokeEnter? || a.RevokeRead? || a.Clear? || a.RevokeReread? || a.ClearAgain? { RevokeTokens(s, a); } else { PlainTokens(s, a); }
  }

  // ---- Runs ----

  lemma InitialInv(s: State)
    requires Initial(s)
    ensures Inv(s)
  {
    assert forall j :: Pending(s, j) == None;
  }

  lemma StepInv(s: State, a: Step)
    requires Inv(s) && Enabled(s, a) && !Excuse(s, a)
    ensures Inv(Apply(s, a))
  {
    StepBase(s, a);
    StepTokens(s, a);
    hide *;
  }

  lemma {:induction false} RunBase(s: State, steps: seq<Step>)
    requires Base(s)
    ensures Base(Run(s, steps))
    decreases |steps|
  {
    hide Base, Apply, Enabled;
    if steps != [] {
      if Enabled(s, steps[0]) { StepBase(s, steps[0]); }
      RunBase(if Enabled(s, steps[0]) then Apply(s, steps[0]) else s, steps[1..]);
    }
  }

  lemma {:induction false} RunInv(s: State, steps: seq<Step>)
    requires Inv(s) && NoExcuse(s, steps)
    ensures Inv(Run(s, steps))
    decreases |steps|
  {
    hide Inv, Apply, Enabled, Excuse;
    if steps != [] {
      if Enabled(s, steps[0]) { StepInv(s, steps[0]); }
      RunInv(if Enabled(s, steps[0]) then Apply(s, steps[0]) else s, steps[1..]);
    }
  }

  /**
   * Single spend: in every interleaving, a refresh token the vendor has answered with a rotated successor is never
   * sent to the token endpoint again, and none is left in an unattended row, as long as no step leads one astray: a
   * release over a row that still holds the token it spent, or an edit that puts a spent token back.
   */
  lemma SingleSpend(s: State, steps: seq<Step>)
    requires Initial(s) && NoExcuse(s, steps)
    ensures var n := Run(s, steps);
            !n.doubled && !Astray(n) && (n.lock == None && RowToken(n).Some? ==> RowToken(n).value !in n.spent)
  {
    InitialInv(s);
    RunInv(s, steps);
  }

  /**
   * The excuses are exact: in every run without one so far, the next step leaves a spent token in the row with no
   * refresh about to replace it if and only if it is one.
   */
  lemma ExcusesAreExact(s: State, steps: seq<Step>, a: Step)
    requires Initial(s) && NoExcuse(s, steps) && Enabled(Run(s, steps), a)
    ensures Astray(Apply(Run(s, steps), a)) <==> Excuse(Run(s, steps), a)
  {
    InitialInv(s);
    RunInv(s, steps);
    hide Run, NoExcuse, Initial;
    var n := Run(s, steps);
    if Excuse(n, a) {
      ExcuseLeadsAstray(n, a);
    } else {
      StepInv(n, a);
    }
    hide Base, Apply, Enabled, Excuse;
  }

  lemma ExcuseLeadsAstray(s: State, a: Step)
    requires Inv(s) && Enabled(s, a) && Excuse(s, a)
    ensures Astray(Apply(s, a))
  {
    if a.Edit? {
      hide Base, PendingsOk;
    } else {
      assert s.lock == Some(P(a.i)) && Refreshing(s) && Refresher(s) == s.pres[a.i];
      hide TheirAnswer, Base, PendingsOk;
    }
  }

  /** And a spent token left in a row is sent by the next refresh of it. */
  lemma AstrayIsSentNext(s: State, i: nat, now: int)
    requires Unattended(s, i, now) && Astray(s)
    ensures Run(s, RefreshUpTo(i, now, s.row)).doubled
  {
    hide Run, RefreshUpTo;
    RefreshSends(s, i, now, s.row);
  }

  /** A disconnect that lands removes exactly the pair it read under the lock, the retry after a miss included. */
  lemma DisconnectClearsWhatItRead(s: State, steps: seq<Step>)
    requires Initial(s)
    ensures !Run(s, steps).misCleared
  {
    InitialInv(s);
    RunBase(s, steps);
  }

  /** Two actors are never inside the lock, so at most one refresh is with the vendor. */
  lemma OneRefreshAtATime(s: State, steps: seq<Step>, i: nat, j: nat)
    requires Initial(s)
    ensures var n := Run(s, steps);
            i in n.pres && j in n.pres && InRefresh(n.pres[i]) && InRefresh(n.pres[j]) ==> i == j
  {
    InitialInv(s);
    RunBase(s, steps);
  }

  /** Present never hands out a stored token past its expiry; only what its own refresh minted goes out unchecked. */
  lemma NoLapsedToken(s: State, steps: seq<Step>, i: nat)
    requires Initial(s)
    ensures var n := Run(s, steps);
            i in n.pres && n.pres[i].Done? ==> Fair(n.pres[i].outcome, n.pres[i].minted, n.pres[i].now)
  {
    InitialInv(s);
    RunBase(s, steps);
  }

  // ---- Why the excuses are needed ----

  function RefreshUpTo(i: nat, now: int, stale: Row): seq<Step> {
    [Begin(i, now, stale), Enter(i), Reread(i, true), Send(i)]
  }

  /** Nobody is in the lock and the row needs a refresh that `i` may make. */
  ghost predicate Unattended(s: State, i: nat, now: int) {
    && s.lock == None && i !in s.pres && s.row.blob.Some? && RowAnswer(s.row, s.retryAfter, now) == None
  }

  lemma RunStep(s: State, a: Step, rest: seq<Step>)
    ensures Run(s, [a] + rest) == Run(if Enabled(s, a) then Apply(s, a) else s, rest)
  {
    hide Apply, Enabled;
    assert ([a] + rest)[1..] == rest;
  }

  lemma {:induction false} RunConcat(s: State, a: seq<Step>, b: seq<Step>)
    ensures Run(s, a + b) == Run(Run(s, a), b)
    decreases |a|
  {
    hide Apply, Enabled;
    if a == [] {
      assert a + b == b;
    } else {
      assert (a + b)[1..] == a[1..] + b;
      RunConcat(if Enabled(s, a[0]) then Apply(s, a[0]) else s, a[1..], b);
    }
  }

  /** A whole refresh up to the vendor call. */
  lemma RefreshSends(s: State, i: nat, now: int, stale: Row)
    requires Unattended(s, i, now) && Open(stale).Some? && Due(Open(stale).value, now)
    ensures var n := Run(s, RefreshUpTo(i, now, stale)); var t := s.row.blob.value.tokens.refresh;
            && t.Some?
            && n == s.(lock := Some(P(i)), pres := s.pres[i := Sent(now, s.row.blob.value)],
                       sent := s.sent + {t.value}, doubled := s.doubled || t.value in s.spent)
  {
    EnterSends(s, i, now, stale);
    var s2 := s.(lock := Some(P(i)), pres := s.pres[i := Entered(now)]);
    var first, last := [Begin(i, now, stale), Enter(i)], [Reread(i, true), Send(i)];
    hide Run, RowAnswer, Open, Due;
    assert RefreshUpTo(i, now, stale) == first + last;
    RunConcat(s, first, last);
    RereadSends(s2, i);
    assert s2.pres[i := Sent(now, s.row.blob.value)] == s.pres[i := Sent(now, s.row.blob.value)];
  }

  lemma EnterSends(s: State, i: nat, now: int, stale: Row)
    requires s.lock == None && i !in s.pres && Open(stale).Some? && Due(Open(stale).value, now)
    ensures Run(s, [Begin(i, now, stale), Enter(i)]) == s.(lock := Some(P(i)), pres := s.pres[i := Entered(now)])
  {
    var s1 := s.(pres := s.pres[i := Waiting(now)]);
    assert DoBegin(s, i, now, stale) == s1;
    RunTwo(s, Begin(i, now, stale), Enter(i));
    hide Run, Open, Due;
    assert s1.pres[i := Entered(now)] == s.pres[i := Entered(now)];
  }

  lemma RereadSends(s: State, i: nat)
    requires i in s.pres && s.pres[i].Entered? && s.row.blob.Some? && RowAnswer(s.row, s.retryAfter, s.pres[i].now) == None
    ensures var n := Run(s, [Reread(i, true), Send(i)]); var blob := s.row.blob.value; var t := blob.tokens.refresh;
            && t.Some?
            && n == s.(pres := s.pres[i := Sent(s.pres[i].now, blob)], sent := s.sent + {t.value}, doubled := s.doubled || t.value in s.spent)
  {
    var s1 := s.(pres := s.pres[i := Ready(s.pres[i].now, s.row.blob.value)]);
    assert s.row.blob.value.tokens.refresh.Some?;
    assert DoReread(s, i, true) == s1;
    hide RowAnswer;
    RunTwo(s, Reread(i, true), Send(i));
    hide Run;
    assert s1.pres[i := Sent(s.pres[i].now, s.row.blob.value)] == s.pres[i := Sent(s.pres[i].now, s.row.blob.value)];
  }

  lemma RunEmpty(s: State)
    ensures Run(s, []) == s
  {
  }

  /** The vendor rotates, the store refuses the new set, and the next caller sends the old token again. */
  lemma StoreFailureDoubles(s: State, i: nat, j: nat, now: int, at: int)
    requires Initial(s) && Unattended(s, i, now) && i != j
    ensures var steps := RefreshUpTo(i, now, s.row) + [Answer(i, Renew(true, at)), Swap(i, false)] + RefreshUpTo(j, now, s.row);
            Run(s, steps).doubled
  {
    var first, middle, again := RefreshUpTo(i, now, s.row), [Answer(i, Renew(true, at)), Swap(i, false)], RefreshUpTo(j, now, s.row);
    RefreshSends(s, i, now, s.row);
    var s1 := Run(s, first);
    RunConcat(s, first + middle, again);
    RunConcat(s, first, middle);
    assert middle == [Answer(i, Renew(true, at))] + ([Swap(i, false)] + []);
    RunStep(s1, Answer(i, Renew(true, at)), [Swap(i, false)] + []);
    var s2 := DoAnswer(s1, i, Renew(true, at));
    RunStep(s2, Swap(i, false), []);
    var s3 := DoSwap(s2, i, false);
    RunEmpty(s3);
    assert s3.row == s.row && s3.retryAfter == s.retryAfter && s3.lock == None && j !in s3.pres;
    hide Run, Apply, Enabled, RowAnswer;
    RefreshSends(s3, j, now, s.row);
  }

  /**
   * The vendor rotates and its answer is refused, lost on the way or cannot be sealed: no store call fails, nothing else
   * writes the row, and the first refresh after the hold-off sends the old token again.
   */
  lemma LostAnswerDoubles(s: State, i: nat, j: nat, now: int, later: int, reply: Reply)
    requires Initial(s) && Unattended(s, i, now) && i != j && Wasted(reply)
    requires later >= now + HOLD_OFF
    ensures Run(s, RefreshUpTo(i, now, s.row) + [Answer(i, reply)] + RefreshUpTo(j, later, s.row)).doubled
  {
    var first, middle, again := RefreshUpTo(i, now, s.row), [Answer(i, reply)], RefreshUpTo(j, later, s.row);
    RefreshSends(s, i, now, s.row);
    var s1 := Run(s, first);
    RunConcat(s, first + middle, again);
    RunConcat(s, first, middle);
    assert middle == [Answer(i, reply)] + [];
    RunStep(s1, Answer(i, reply), []);
    var s2 := DoAnswer(s1, i, reply);
    RunEmpty(s2);
    assert s2.row == s.row && s2.lock == None && j !in s2.pres && s.row.blob.value.tokens.refresh.value in s2.spent;
    hide Run, Apply, Enabled;
    assert Unattended(s2, j, later);
    hide RowAnswer;
    RefreshSends(s2, j, later, s.row);
  }

  function Rewrap(k: nat): seq<Step> {
    [RekeyRead(k), RekeySwap(k)]
  }

  lemma RunTwo(s: State, a: Step, b: Step)
    requires Enabled(s, a) && Enabled(Apply(s, a), b)
    ensures Run(s, [a, b]) == Apply(Apply(s, a), b)
  {
    hide Apply, Enabled;
    assert [a, b] == [a] + ([b] + []);
    RunStep(s, a, [b] + []);
    RunStep(Apply(s, a), b, []);
    RunEmpty(Apply(Apply(s, a), b));
  }

  /** One whole re-wrap: the same set under a new nonce. */
  ghost predicate Rewrapped(s: State, n: State) {
    && s.row.blob.Some? && n.row == s.row.(blob := Some(Blob(s.next, s.row.blob.value.tokens)))
    && n == s.(row := n.row, next := s.next + 1)
  }

  lemma SwapRewraps(s: State, k: nat, blob: Blob)
    requires s.rekeys == map[k := blob] && s.row.blob == Some(blob)
    ensures Rewrapped(s.(rekeys := map[]), DoRekeySwap(s, k))
  {
    hide InRefresh;
    assert (map x | x in s.rekeys && x != k :: s.rekeys[x]) == map[];
  }

  lemma RekeyApplies(s: State, k: nat)
    requires s.row.blob.Some? && k !in s.rekeys
    ensures var s1 := s.(rekeys := s.rekeys[k := s.row.blob.value]);
            && Enabled(s, RekeyRead(k)) && Apply(s, RekeyRead(k)) == s1
            && Enabled(s1, RekeySwap(k)) && Apply(s1, RekeySwap(k)) == DoRekeySwap(s1, k)
  {
    hide DoRekeySwap;
  }

  lemma RewrapLands(s: State, k: nat)
    requires s.row.blob.Some? && s.rekeys == map[]
    ensures Rewrapped(s, Run(s, Rewrap(k)))
  {
    hide DoRekeySwap, Run, Rewrapped, InRefresh, Open, Due;
    var s1 := s.(rekeys := s.rekeys[k := s.row.blob.value]);
    RekeyApplies(s, k);
    hide Apply, Enabled;
    RunTwo(s, RekeyRead(k), RekeySwap(k));
    assert s1.rekeys == map[k := s.row.blob.value] && s1.(rekeys := map[]) == s;
    SwapRewraps(s1, k, s.row.blob.value);
  }

  function Rewraps(ks: seq<nat>): seq<Step> {
    if ks == [] then [] else Rewrap(ks[0]) + Rewraps(ks[1..])
  }

  /** Any number of whole re-wraps: still the same set, under the nonce of the last. */
  lemma {:induction false} RewrapsLand(s: State, ks: seq<nat>)
    requires s.row.blob.Some? && s.rekeys == map[]
    ensures var n := Run(s, Rewraps(ks));
            && n == s.(row := n.row, next := s.next + |ks|) && n.row == s.row.(blob := n.row.blob)
            && n.row.blob.Some? && n.row.blob.value.tokens == s.row.blob.value.tokens
            && (if ks == [] then n.row.blob == s.row.blob else n.row.blob.value.nonce == n.next - 1)
    decreases |ks|
  {
    if ks == [] {
      RunEmpty(s);
    } else {
      RewrapLands(s, ks[0]);
      RunConcat(s, Rewrap(ks[0]), Rewraps(ks[1..]));
      hide Run, Rewrap;
      RewrapsLand(Run(s, Rewrap(ks[0])), ks[1..]);
    }
  }

  /** The refresh of `i` has the vendor's rotated answer and a row that no longer holds the bytes it read. */
  ghost predicate LostSwap(s: State, i: nat, base: Blob) {
    && s.lock == Some(P(i)) && i in s.pres && s.rekeys == map[]
    && s.pres[i].Missed? && s.pres[i].base == base
    && s.row.blob.Some? && s.row.blob.value.tokens == base.tokens
    && base.tokens.refresh.Some? && base.tokens.refresh.value in s.spent
    && Open(s.row) == Some(base.tokens)
  }

  /** The vendor answers and the swap finds other bytes. */
  lemma AnswerMisses(s: State, i: nat, at: int)
    requires i in s.pres && s.pres[i].Sent? && s.pres[i].base.tokens.refresh.Some? && s.row.blob != Some(s.pres[i].base)
    ensures var p := s.pres[i]; var n := Run(s, [Answer(i, Renew(true, at)), Swap(i, true)]);
            && n == s.(pres := n.pres, next := s.next + 2, spent := s.spent + {p.base.tokens.refresh.value})
            && n.pres.Keys == s.pres.Keys
            && n.pres[i] == Missed(p.now, p.base, Renewed(p.base.tokens, s.next, true, at))
  {
    var s1 := DoAnswer(s, i, Renew(true, at));
    assert DoSwap(s1, i, true) == s1.(pres := s1.pres[i := Missed(s1.pres[i].now, s1.pres[i].base, s1.pres[i].renewed)]);
    RunTwo(s, Answer(i, Renew(true, at)), Swap(i, true));
    hide Run;
  }

  lemma FirstMiss(s: State, i: nat, ks: seq<nat>, at: int)
    requires i in s.pres && s.pres[i].Sent? && s.lock == Some(P(i)) && s.rekeys == map[] && ks != []
    requires s.row.blob == Some(s.pres[i].base) && Open(s.row) == Some(s.pres[i].base.tokens) && s.pres[i].base.tokens.refresh.Some?
    requires s.pres[i].base.nonce < s.next
    ensures var n := Run(s, Rewraps(ks) + [Answer(i, Renew(true, at)), Swap(i, true)]);
            && LostSwap(n, i, s.pres[i].base) && n.retryAfter == s.retryAfter
            && n.pres.Keys == s.pres.Keys && n.row == s.row.(blob := n.row.blob) && n.row.blob.value.nonce < n.next
            && n.pres[i].renewed == Renewed(s.pres[i].base.tokens, s.next + |ks|, true, at) && n.pres[i].now == s.pres[i].now
  {
    hide Run, Rewraps, Renewed;
    RewrapsLand(s, ks);
    RunConcat(s, Rewraps(ks), [Answer(i, Renew(true, at)), Swap(i, true)]);
    AnswerMisses(Run(s, Rewraps(ks)), i, at);
  }

  lemma SecondMiss(s: State, i: nat, k: nat)
    requires i in s.pres && s.pres[i].Missed? && LostSwap(s, i, s.pres[i].base) && s.row.blob.value.nonce < s.next
    ensures var n := Run(s, [RereadMiss(i, true)] + Rewrap(k) + [SwapAgain(i, true)]);
            && n.lock == None && n.row == s.row.(blob := n.row.blob) && n.row.blob.Some?
            && n.row.blob.value.tokens == s.row.blob.value.tokens && n.spent == s.spent
            && n.retryAfter == s.retryAfter && n.pres.Keys == s.pres.Keys
  {
    var s4 := DoRereadMiss(s, i, true);
    assert s4 == s.(pres := s.pres[i := Again(s.pres[i].now, s.pres[i].base, s.pres[i].renewed, s.row.blob.value)]);
    hide Run, DoRereadMiss, TheirAnswer;
    RewrapLands(s4, k);
    var s5 := Run(s4, Rewrap(k));
    var rest := Rewrap(k) + [SwapAgain(i, true)];
    assert [RereadMiss(i, true)] + Rewrap(k) + [SwapAgain(i, true)] == [RereadMiss(i, true)] + rest;
    RunStep(s, RereadMiss(i, true), rest);
    RunConcat(s4, Rewrap(k), [SwapAgain(i, true)]);
    RunStep(s5, SwapAgain(i, true), []);
    assert [SwapAgain(i, true)] + [] == [SwapAgain(i, true)];
    RunEmpty(DoSwapAgain(s5, i, true));
  }

  lemma StillDue(s: State, n: State, now: int)
    requires s.row.blob.Some? && RowAnswer(s.row, s.retryAfter, now) == None
    requires n.row.blob.Some? && n.row.blob.value.tokens == s.row.blob.value.tokens && n.row.oauth == s.row.oauth
    requires n.row.url == s.row.url && n.retryAfter == s.retryAfter
    ensures RowAnswer(n.row, n.retryAfter, now) == None
  {
  }

  /** A refresh whose second swap, too, loses to a whole re-wrap. */
  function LosesTwice(i: nat, ks: seq<nat>, k: nat, at: int): seq<Step> {
    (Rewraps(ks) + [Answer(i, Renew(true, at)), Swap(i, true)]) + ([RereadMiss(i, true)] + Rewrap(k) + [SwapAgain(i, true)])
  }

  lemma LosesTwiceKeepsTheSpentToken(s: State, i: nat, ks: seq<nat>, k: nat, at: int)
    requires i in s.pres && s.pres[i].Sent? && s.lock == Some(P(i)) && s.rekeys == map[] && ks != []
    requires s.row.blob == Some(s.pres[i].base) && Open(s.row) == Some(s.pres[i].base.tokens) && s.pres[i].base.tokens.refresh.Some?
    requires s.pres[i].base.nonce < s.next
    ensures var n := Run(s, LosesTwice(i, ks, k, at));
            && n.lock == None && n.retryAfter == s.retryAfter && n.pres.Keys == s.pres.Keys
            && n.row == s.row.(blob := n.row.blob) && n.row.blob.Some? && n.row.blob.value.tokens == s.row.blob.value.tokens
            && s.row.blob.value.tokens.refresh.value in n.spent
  {
    hide Run;
    var first := Rewraps(ks) + [Answer(i, Renew(true, at)), Swap(i, true)];
    RunConcat(s, first, [RereadMiss(i, true)] + Rewrap(k) + [SwapAgain(i, true)]);
    FirstMiss(s, i, ks, at);
    SecondMiss(Run(s, first), i, k);
  }

  /** A re-wrap between the re-read after a miss and the second swap defeats the refresh, and the old token is sent again. */
  lemma LateRewrapDoubles(s: State, i: nat, j: nat, ks: seq<nat>, k: nat, now: int, at: int)
    requires Initial(s) && Unattended(s, i, now) && i != j && s.row.blob.value.nonce < s.next && ks != []
    ensures Run(s, RefreshUpTo(i, now, s.row) + LosesTwice(i, ks, k, at) + RefreshUpTo(j, now, s.row)).doubled
  {
    var first, middle, again := RefreshUpTo(i, now, s.row), LosesTwice(i, ks, k, at), RefreshUpTo(j, now, s.row);
    RunConcat(s, first + middle, again);
    RunConcat(s, first, middle);
    RefreshSends(s, i, now, s.row);
    var s1 := Run(s, first);
    hide Run, LosesTwice, RefreshUpTo;
    LosesTwiceKeepsTheSpentToken(s1, i, ks, k, at);
    var s2 := Run(s1, middle);
    StillDue(s, s2, now);
    assert j !in s2.pres.Keys;
    RefreshSends(s2, j, now, s.row);
  }

  /** An edit that puts the old set back after a rotation has it sent again. */
  lemma OldSetPutBackDoubles(s: State, i: nat, j: nat, now: int, at: int)
    requires Initial(s) && Unattended(s, i, now) && i != j
    ensures var refresh := RefreshUpTo(i, now, s.row) + [Answer(i, Renew(true, at)), Swap(i, true)];
            Run(s, refresh + [Edit(s.row.blob.value.tokens)] + RefreshUpTo(j, now, s.row)).doubled
  {
    var refresh, former := RefreshUpTo(i, now, s.row) + [Answer(i, Renew(true, at)), Swap(i, true)], s.row.blob.value.tokens;
    RunConcat(s, refresh + [Edit(former)], RefreshUpTo(j, now, s.row));
    RunConcat(s, refresh, [Edit(former)]);
    RefreshLands(s, i, now, true, at);
    var s1 := Run(s, refresh);
    assert Enabled(s1, Edit(former)) && s.row.oauth;
    var s2 := DoEdit(s1, former);
    assert Run(s1, [Edit(former)]) == s2 by { RunStep(s1, Edit(former), []); RunEmpty(s2); assert [Edit(former)] + [] == [Edit(former)]; }
    hide Run, RefreshUpTo, Enabled;
    StillDue(s, s2, now);
    RefreshSends(s2, j, now, s.row);
  }

  // ---- What a refresh does when it is let ----

  lemma AnswerAndSwap(s: State, i: nat, rotate: bool, at: int)
    requires i in s.pres && s.pres[i].Sent? && s.pres[i].base.tokens.refresh.Some? && s.row.blob == Some(s.pres[i].base)
    ensures var p := s.pres[i]; var renewed := Renewed(p.base.tokens, s.next, rotate, at);
            var n := Run(s, [Answer(i, Renew(rotate, at)), Swap(i, true)]);
            && n.row == s.row.(blob := Some(Blob(s.next + 2, renewed))) && n.lock == None
            && n.pres == s.pres[i := Done(p.now, Presented(renewed), true)]
            && n.sent == s.sent && n.retryAfter == s.retryAfter && n.next == s.next + 3
            && n.spent == (if rotate then s.spent + {p.base.tokens.refresh.value} else s.spent)
  {
    var s1 := DoAnswer(s, i, Renew(rotate, at));
    var s2 := DoSwap(s1, i, true);
    assert s2.pres == s.pres[i := Done(s.pres[i].now, Presented(s1.pres[i].renewed), true)];
    RunTwo(s, Answer(i, Renew(rotate, at)), Swap(i, true));
    hide Run;
  }

  /** A refresh nobody disturbs stores the renewed set and hands it to its caller; the old token is sent once. */
  lemma RefreshLands(s: State, i: nat, now: int, rotate: bool, at: int)
    requires Unattended(s, i, now)
    ensures var kept := s.row.blob.value.tokens; var renewed := Renewed(kept, s.next, rotate, at);
            var n := Run(s, RefreshUpTo(i, now, s.row) + [Answer(i, Renew(rotate, at)), Swap(i, true)]);
            && kept.refresh.Some? && n.sent == s.sent + {kept.refresh.value}
            && n.row == s.row.(blob := Some(Blob(s.next + 2, renewed))) && n.lock == None
            && n.pres == s.pres[i := Done(now, Presented(renewed), true)] && n.retryAfter == s.retryAfter
            && n.spent == (if rotate then s.spent + {kept.refresh.value} else s.spent) && n.next == s.next + 3
  {
    var first, rest := RefreshUpTo(i, now, s.row), [Answer(i, Renew(rotate, at)), Swap(i, true)];
    RefreshSends(s, i, now, s.row);
    RunConcat(s, first, rest);
    var s1 := Run(s, first);
    hide Run, RefreshUpTo, Unattended;
    AnswerAndSwap(s1, i, rotate, at);
    assert s.pres[i := s1.pres[i]][i := Done(now, Presented(Renewed(s.row.blob.value.tokens, s.next, rotate, at)), true)]
        == s.pres[i := Done(now, Presented(Renewed(s.row.blob.value.tokens, s.next, rotate, at)), true)];
  }

  /** Whoever waited for the lock meanwhile finds the leader's set in the row and sends nothing. */
  lemma WaiterSendsNothing(s: State, j: nat)
    requires s.lock == None && j in s.pres && s.pres[j].Waiting? && Open(s.row).Some? && !Due(Open(s.row).value, s.pres[j].now)
    ensures var n := Run(s, [Enter(j), Reread(j, true)]);
            && n.pres == s.pres[j := Done(s.pres[j].now, Presented(Open(s.row).value), false)]
            && n.sent == s.sent && n.row == s.row && n.lock == None
  {
    var s1 := Apply(s, Enter(j));
    RunTwo(s, Enter(j), Reread(j, true));
    hide Run;
    assert s1.pres[j := Done(s.pres[j].now, Presented(Open(s.row).value), false)]
        == s.pres[j := Done(s.pres[j].now, Presented(Open(s.row).value), false)];
  }

  lemma OneRefreshServesTheWaiters(s: State, i: nat, j: nat, now: int, rotate: bool, at: int)
    requires Unattended(s, i, now) && i != j && j in s.pres && s.pres[j].Waiting? && at > s.pres[j].now + WINDOW
    ensures var renewed := Renewed(s.row.blob.value.tokens, s.next, rotate, at);
            var n := Run(Run(s, RefreshUpTo(i, now, s.row) + [Answer(i, Renew(rotate, at)), Swap(i, true)]), [Enter(j), Reread(j, true)]);
            && j in n.pres && n.pres[j] == Done(s.pres[j].now, Presented(renewed), false)
            && n.sent == s.sent + {s.row.blob.value.tokens.refresh.value}
  {
    RefreshLands(s, i, now, rotate, at);
    var n := Run(s, RefreshUpTo(i, now, s.row) + [Answer(i, Renew(rotate, at)), Swap(i, true)]);
    assert Open(s.row).Some?;
    hide Run, RefreshUpTo;
    WaiterSendsNothing(n, j);
  }

  function Absorbs(i: nat, ks: seq<nat>, at: int): seq<Step> {
    (Rewraps(ks) + [Answer(i, Renew(true, at)), Swap(i, true)]) + [RereadMiss(i, true), SwapAgain(i, true)]
  }

  lemma AbsorbedFrom(s: State, i: nat, ks: seq<nat>, at: int)
    requires i in s.pres && s.pres[i].Sent? && s.lock == Some(P(i)) && s.rekeys == map[] && ks != []
    requires s.row.blob == Some(s.pres[i].base) && Open(s.row) == Some(s.pres[i].base.tokens) && s.pres[i].base.tokens.refresh.Some?
    requires s.pres[i].base.nonce < s.next
    ensures var renewed := Renewed(s.pres[i].base.tokens, s.next + |ks|, true, at); var n := Run(s, Absorbs(i, ks, at));
            && n.row.blob.Some? && n.row.blob.value.tokens == renewed && n.lock == None
            && i in n.pres && n.pres[i] == Done(s.pres[i].now, Presented(renewed), true)
  {
    var middle, last := Rewraps(ks) + [Answer(i, Renew(true, at)), Swap(i, true)], [RereadMiss(i, true), SwapAgain(i, true)];
    RunConcat(s, middle, last);
    hide Run, Rewraps, Open, Renewed;
    FirstMiss(s, i, ks, at);
    SecondSwap(Run(s, middle), i);
  }

  /** Re-wraps before the re-read cost a refresh nothing, however many: the second swap puts the renewed set in place. */
  lemma EarlyRewrapsAreAbsorbed(s: State, i: nat, ks: seq<nat>, now: int, at: int)
    requires Initial(s) && Unattended(s, i, now) && s.row.blob.value.nonce < s.next && ks != []
    ensures var renewed := Renewed(s.row.blob.value.tokens, s.next + |ks|, true, at);
            var n := Run(s, RefreshUpTo(i, now, s.row) + Absorbs(i, ks, at));
            && n.row.blob.Some? && n.row.blob.value.tokens == renewed && n.lock == None
            && i in n.pres && n.pres[i] == Done(now, Presented(renewed), true)
  {
    hide Run, RefreshUpTo, Absorbs, Renewed, InRefresh;
    assert Open(s.row) == Some(s.row.blob.value.tokens) && s.rekeys == map[];
    RunConcat(s, RefreshUpTo(i, now, s.row), Absorbs(i, ks, at));
    RefreshSends(s, i, now, s.row);
    hide RowAnswer, Initial, Unattended;
    AbsorbedFrom(Run(s, RefreshUpTo(i, now, s.row)), i, ks, at);
  }

  lemma SecondSwap(s: State, i: nat)
    requires i in s.pres && s.pres[i].Missed? && LostSwap(s, i, s.pres[i].base)
    ensures var n := Run(s, [RereadMiss(i, true), SwapAgain(i, true)]);
            && n.row.blob.Some? && n.row.blob.value.tokens == s.pres[i].renewed && n.lock == None
            && i in n.pres && n.pres[i] == Done(s.pres[i].now, Presented(s.pres[i].renewed), true)
  {
    var s1 := DoRereadMiss(s, i, true);
    RunTwo(s, RereadMiss(i, true), SwapAgain(i, true));
    hide Run;
  }

  // ---- A set that never expires ----

  /** Found after a missed swap, another writer's grant is refused exactly when it has lapsed or has no expiry at all. */
  lemma TheirsIsRefusedExactly(row: Row, base: Blob, now: int)
    requires Open(row).Some? && Open(row).value.refresh != base.tokens.refresh
    ensures var at := Open(row).value.expiresAt;
            && (TheirAnswer(row, base, now) == Some(Expired) <==> at == None || at.value <= now)
            && (TheirAnswer(row, base, now) == Some(Presented(Open(row).value)) <==> at.Some? && at.value > now)
  {
  }

  /** Everywhere else a set that never expires is presented. */
  lemma NeverExpiringIsPresented(row: Row, retryAfter: Option<int>, now: int)
    requires Open(row).Some? && Open(row).value.expiresAt == None
    ensures RowAnswer(row, retryAfter, now) == Some(Presented(Open(row).value))
  {
  }

  /** A presenter's steps up to the vendor call. */
  predicate Early(a: Step) {
    a.Begin? || a.Enter? || a.GiveUp? || a.Reread? || a.Send?
  }

  /** And from the answer on. */
  predicate Late(a: Step) {
    a.Answer? || a.Swap? || a.RereadMiss? || a.SwapAgain? || a.DropToken?
  }

  /** What a presenter refreshes is a set that expires, and is about to. */
  ghost predicate DueOk(s: State) {
    forall i :: i in s.pres && InRefresh(s.pres[i]) ==> Due(s.pres[i].base.tokens, s.pres[i].now)
  }

  lemma DueFrame(s: State, n: State, i: nat)
    requires DueOk(s) && i in n.pres && n.pres == s.pres[i := n.pres[i]]
    requires InRefresh(n.pres[i]) ==> Due(n.pres[i].base.tokens, n.pres[i].now)
    ensures DueOk(n)
  {
    hide Due, InRefresh;
  }

  lemma EarlyDue(s: State, a: Step)
    requires DueOk(s) && Enabled(s, a) && Early(a)
    ensures DueOk(Apply(s, a))
  {
    DueAt(s, a.i);
    hide DueOk, StillValid;
    DueFrame(s, Apply(s, a), a.i);
  }

  /** A presenter inside its refresh keeps the set it started from until it leaves. */
  ghost predicate KeepsBase(s: State, n: State, i: nat) {
    && i in s.pres && i in n.pres && InRefresh(s.pres[i]) && n.pres == s.pres[i := n.pres[i]]
    && (InRefresh(n.pres[i]) ==> n.pres[i].base == s.pres[i].base && n.pres[i].now == s.pres[i].now)
  }

  lemma AnswerKeepsBase(s: State, i: nat, reply: Reply)
    requires i in s.pres && s.pres[i].Sent? && s.pres[i].base.tokens.refresh.Some?
    ensures KeepsBase(s, DoAnswer(s, i, reply), i)
  {
    hide StillValid, Renewed;
  }

  lemma SwapsKeepBase(s: State, i: nat, ok: bool)
    requires i in s.pres
    ensures s.pres[i].Answered? ==> KeepsBase(s, DoSwap(s, i, ok), i)
    ensures s.pres[i].Again? ==> KeepsBase(s, DoSwapAgain(s, i, ok), i)
  {
  }

  lemma MissKeepsBase(s: State, i: nat, ok: bool)
    requires i in s.pres
    ensures s.pres[i].Missed? ==> KeepsBase(s, DoRereadMiss(s, i, ok), i)
    ensures s.pres[i].Rejected? ==> KeepsBase(s, DoDrop(s, i, ok), i)
  {
    hide TheirAnswer, StillValid;
  }

  lemma LateDue(s: State, a: Step)
    requires DueOk(s) && Enabled(s, a) && Late(a)
    ensures DueOk(Apply(s, a))
  {
    DueAt(s, a.i);
    hide DueOk, Due;
    if a.Answer? {
      AnswerKeepsBase(s, a.i, a.reply);
    } else {
      SwapsKeepBase(s, a.i, a.ok);
      MissKeepsBase(s, a.i, a.ok);
    }
    hide DoAnswer, DoSwap, DoSwapAgain, DoRereadMiss, DoDrop;
    DueFrame(s, Apply(s, a), a.i);
  }

  lemma DueAt(s: State, i: nat)
    requires DueOk(s)
    ensures i in s.pres && InRefresh(s.pres[i]) ==> Due(s.pres[i].base.tokens, s.pres[i].now)
  {
  }

  lemma StepDue(s: State, a: Step)
    requires DueOk(s) && Enabled(s, a)
    ensures DueOk(Apply(s, a))
  {
    if Early(a) {
      EarlyDue(s, a);
      hide *;
    } else if Late(a) {
      LateDue(s, a);
      hide *;
    } else {
      hide DueOk;
      SamePresenters(s, a);
      hide Apply, Enabled;
      DueSame(s, Apply(s, a));
    }
  }

  lemma DueSame(s: State, n: State)
    requires DueOk(s) && n.pres == s.pres
    ensures DueOk(n)
  {
  }

  lemma SamePresenters(s: State, a: Step)
    requires Enabled(s, a)
    requires !Early(a) && !Late(a)
    ensures Apply(s, a).pres == s.pres
  {
    hide Pair, Open, Due;
    if a.RevokeRead? || a.Clear? || a.RevokeReread? || a.ClearAgain? {
      RevokeShape(s, a.d, a.ok);
      ClearShape(s, a.d, a.ok);
      hide DoRevokeRead, DoClear, DoRevokeReread, DoClearAgain;
    }
  }

  lemma {:induction false} RunDue(s: State, steps: seq<Step>)
    requires DueOk(s)
    ensures DueOk(Run(s, steps))
    decreases |steps|
  {
    hide DueOk, Apply, Enabled;
    if steps != [] {
      if Enabled(s, steps[0]) { StepDue(s, steps[0]); }
      RunDue(if Enabled(s, steps[0]) then Apply(s, steps[0]) else s, steps[1..]);
    }
  }

  /** The stored set a refresh falls back on has an expiry, whatever edits have stored. */
  lemma RefreshedSetsExpire(s: State, steps: seq<Step>, i: nat)
    requires Initial(s)
    ensures var n := Run(s, steps); i in n.pres && InRefresh(n.pres[i]) ==> n.pres[i].base.tokens.expiresAt.Some?
  {
    RunDue(s, steps);
    hide Run;
  }

  // ---- Only an edit stores a set that never expires ----

  /** A set with an access token, which alone can be presented, has an expiry. */
  predicate Lapses(tokens: TokenSet) {
    tokens.access.Some? ==> tokens.expiresAt.Some?
  }

  ghost predicate EditsLapse(steps: seq<Step>) {
    forall a :: a in steps && a.Edit? ==> Lapses(a.tokens)
  }

  /** In the row, in sign-ins still to be stored and in answers still to be stored. */
  ghost predicate LapseOk(s: State) {
    && (s.row.blob.Some? ==> Lapses(s.row.blob.value.tokens))
    && (forall j :: j in s.signs && (s.signs[j].Exchanged? || s.signs[j].Storing?) ==> Lapses(s.signs[j].tokens))
    && (forall i :: i in s.pres && PostAnswer(s.pres[i]) ==> Lapses(s.pres[i].renewed))
  }

  /** One presenter moves, and the row takes at most a set that lapses. */
  lemma MoveLapse(s: State, n: State, i: nat)
    requires LapseOk(s) && i in n.pres && n.pres == s.pres[i := n.pres[i]] && n.signs == s.signs
    requires PostAnswer(n.pres[i]) ==> Lapses(n.pres[i].renewed)
    requires n.row.blob == s.row.blob || (n.row.blob.Some? && Lapses(n.row.blob.value.tokens))
    ensures LapseOk(n)
  {
    hide PostAnswer, Lapses;
  }

  lemma EarlyLapse(s: State, a: Step)
    requires LapseOk(s) && Enabled(s, a) && Early(a)
    ensures LapseOk(Apply(s, a))
  {
    hide LapseOk, StillValid, Open, RowAnswer, Due, Lapses;
    MoveLapse(s, Apply(s, a), a.i);
  }

  lemma AnswerLapse(s: State, i: nat, reply: Reply)
    requires LapseOk(s) && i in s.pres && s.pres[i].Sent? && s.pres[i].base.tokens.refresh.Some?
    ensures LapseOk(DoAnswer(s, i, reply))
  {
    hide LapseOk, StillValid;
    MoveLapse(s, DoAnswer(s, i, reply), i);
  }

  /** A presenter in its last steps holds only sets that lapse. */
  lemma HeldLapse(s: State, i: nat)
    requires LapseOk(s) && DueOk(s) && i in s.pres
    ensures PostAnswer(s.pres[i]) ==> Lapses(s.pres[i].renewed)
    ensures InRefresh(s.pres[i]) ==> Lapses(s.pres[i].base.tokens)
  {
  }

  lemma SwapsLapse(s: State, i: nat, ok: bool)
    requires LapseOk(s) && DueOk(s) && i in s.pres
    ensures s.pres[i].Answered? ==> LapseOk(DoSwap(s, i, ok))
    ensures s.pres[i].Again? ==> LapseOk(DoSwapAgain(s, i, ok))
  {
    HeldLapse(s, i);
    hide LapseOk, DueOk, Lapses;
    if s.pres[i].Answered? { MoveLapse(s, DoSwap(s, i, ok), i); }
    if s.pres[i].Again? { MoveLapse(s, DoSwapAgain(s, i, ok), i); }
  }

  lemma MissLapse(s: State, i: nat, ok: bool)
    requires LapseOk(s) && DueOk(s) && i in s.pres
    ensures s.pres[i].Missed? ==> LapseOk(DoRereadMiss(s, i, ok))
    ensures s.pres[i].Rejected? ==> LapseOk(DoDrop(s, i, ok))
  {
    HeldLapse(s, i);
    hide LapseOk, DueOk, StillValid, TheirAnswer;
    if s.pres[i].Missed? { MoveLapse(s, DoRereadMiss(s, i, ok), i); }
    if s.pres[i].Rejected? { MoveLapse(s, DoDrop(s, i, ok), i); }
  }

  lemma LateLapse(s: State, a: Step)
    requires LapseOk(s) && DueOk(s) && Enabled(s, a) && Late(a)
    ensures LapseOk(Apply(s, a))
  {
    hide LapseOk, DueOk;
    if a.Answer? {
      AnswerLapse(s, a.i, a.reply);
    } else {
      SwapsLapse(s, a.i, a.ok);
      MissLapse(s, a.i, a.ok);
    }
    hide DoAnswer, DoSwap, DoSwapAgain, DoRereadMiss, DoDrop;
  }

  /** Nothing but the row changes, and it takes at most a set that lapses. */
  lemma RowLapse(s: State, n: State)
    requires LapseOk(s) && n.pres == s.pres && n.signs == s.signs
    requires n.row.blob.Some? && n.row.blob != s.row.blob ==> Lapses(n.row.blob.value.tokens)
    ensures LapseOk(n)
  {
    hide Lapses, PostAnswer;
  }

  lemma SignInLapse(s: State, a: Step)
    requires LapseOk(s) && Enabled(s, a) && (a.StartSignIn? || a.Exchange? || a.SignInEnter? || a.SignInStore?)
    ensures LapseOk(Apply(s, a))
  {
    hide PostAnswer;
  }

  lemma WriterLapse(s: State, a: Step)
    requires LapseOk(s) && Enabled(s, a) && (a.Patch? || a.RekeyRead? || a.RekeySwap? || (a.Edit? && Lapses(a.tokens)))
    ensures LapseOk(Apply(s, a))
  {
    assert s.row.blob.Some? ==> Lapses(s.row.blob.value.tokens);
    hide LapseOk;
    RowLapse(s, Apply(s, a));
  }

  lemma RevokeLapse(s: State, a: Step)
    requires LapseOk(s) && Enabled(s, a) && (a.RevokeEnter? || a.RevokeRead? || a.Clear? || a.RevokeReread? || a.ClearAgain?)
    ensures LapseOk(Apply(s, a))
  {
    hide LapseOk;
    if !a.RevokeEnter? {
      RevokeShape(s, a.d, a.ok);
      ClearShape(s, a.d, a.ok);
    }
    hide DoRevokeRead, DoClear, DoRevokeReread, DoClearAgain;
    RowLapse(s, Apply(s, a));
  }

  lemma StepLapse(s: State, a: Step)
    requires LapseOk(s) && DueOk(s) && Enabled(s, a) && (a.Edit? ==> Lapses(a.tokens))
    ensures LapseOk(Apply(s, a))
  {
    hide LapseOk, DueOk, Apply, Enabled;
    if Early(a) {
      EarlyLapse(s, a);
    } else if Late(a) {
      LateLapse(s, a);
    } else if a.StartSignIn? || a.Exchange? || a.SignInEnter? || a.SignInStore? {
      SignInLapse(s, a);
    } else if a.Patch? || a.RekeyRead? || a.RekeySwap? || a.Edit? {
      WriterLapse(s, a);
    } else {
      RevokeLapse(s, a);
    }
  }

  lemma {:induction false} RunLapse(s: State, steps: seq<Step>)
    requires LapseOk(s) && DueOk(s) && EditsLapse(steps)
    ensures LapseOk(Run(s, steps))
    decreases |steps|
  {
    if steps != [] {
      assert steps[0] in steps && forall a :: a in steps[1..] ==> a in steps;
      hide DueOk, LapseOk, Apply, Enabled;
      if Enabled(s, steps[0]) {
        StepLapse(s, steps[0]);
        StepDue(s, steps[0]);
      }
      RunLapse(if Enabled(s, steps[0]) then Apply(s, steps[0]) else s, steps[1..]);
    }
  }

  /**
   * Sign-ins, refreshes, PATCHes, re-wraps and disconnects never store a usable set without an expiry: in every run from a row
   * that lapses, whose edits bring only sets that lapse, the expiry test never meets one.
   */
  lemma StoredSetsExpire(s: State, steps: seq<Step>)
    requires Initial(s) && (s.row.blob.Some? ==> Lapses(s.row.blob.value.tokens)) && EditsLapse(steps)
    ensures var row := Run(s, steps).row; Open(row).Some? ==> Open(row).value.expiresAt.Some?
  {
    RunLapse(s, steps);
    hide Run;
  }

  /** A good grant without an expiry, stored by hand while a refresh is out: that refresh's caller is told the credential expired. */
  lemma NeverExpiringGrantIsRefused(s: State, i: nat, now: int, rotate: bool, at: int, grant: TokenSet)
    requires Initial(s) && Unattended(s, i, now) && s.row.blob.value.nonce < s.next
    requires grant.access.Some? && grant.expiresAt == None && grant.resource == s.row.url && grant.refresh == Some(s.next + 2)
    ensures var steps := RefreshUpTo(i, now, s.row) + ([Edit(grant)] + [Answer(i, Renew(rotate, at)), Swap(i, true)] + [RereadMiss(i, true)]);
            var n := Run(s, steps);
            && i in n.pres && n.pres[i] == Done(now, Expired, false) && n.lock == None
            && Open(n.row) == Some(grant) && forall later :: RowAnswer(n.row, n.retryAfter, later) == Some(Presented(grant))
  {
    var first, rest := RefreshUpTo(i, now, s.row), [Edit(grant)] + [Answer(i, Renew(rotate, at)), Swap(i, true)] + [RereadMiss(i, true)];
    RunConcat(s, first, rest);
    RefreshSends(s, i, now, s.row);
    assert s.row.oauth;
    hide Run, RefreshUpTo, RowAnswer, InRefresh;
    GrantIsRefused(Run(s, first), i, rotate, at, grant);
    var n := Run(s, first + rest);
    forall later ensures RowAnswer(n.row, n.retryAfter, later) == Some(Presented(grant)) {
      NeverExpiringIsPresented(n.row, n.retryAfter, later);
    }
  }

  /** The grant lands and the vendor answers. */
  lemma GrantThenAnswer(s: State, i: nat, rotate: bool, at: int, grant: TokenSet)
    requires i in s.pres && s.pres[i].Sent? && s.row.oauth && s.pres[i].base.tokens.refresh.Some? && grant.refresh == Some(s.next + 2)
    ensures var p := s.pres[i]; var n := Run(s, [Edit(grant), Answer(i, Renew(rotate, at))]);
            && n.row == s.row.(blob := Some(Blob(s.next, grant)), stamp := s.next + 1) && n.lock == s.lock
            && i in n.pres && n.pres[i] == Answered(p.now, p.base, Renewed(p.base.tokens, s.next + 3, rotate, at))
  {
    var s1 := DoEdit(s, grant);
    GrantLands(s, grant);
    hide Run, Renewed, DoEdit, Apply, Enabled;
    AnswerLands(s1, i, rotate, at);
    RunTwo(s, Edit(grant), Answer(i, Renew(rotate, at)));
  }

  lemma GrantLands(s: State, grant: TokenSet)
    requires s.row.oauth && grant.refresh == Some(s.next + 2)
    ensures Enabled(s, Edit(grant)) && Apply(s, Edit(grant)) == DoEdit(s, grant)
    ensures DoEdit(s, grant) == s.(row := s.row.(blob := Some(Blob(s.next, grant)), stamp := s.next + 1), next := s.next + 3)
  {
  }

  lemma AnswerLands(s: State, i: nat, rotate: bool, at: int)
    requires i in s.pres && s.pres[i].Sent? && s.pres[i].base.tokens.refresh.Some?
    ensures var a := Answer(i, Renew(rotate, at)); var p := s.pres[i];
            && Enabled(s, a) && Apply(s, a).row == s.row && Apply(s, a).lock == s.lock && i in Apply(s, a).pres
            && Apply(s, a).pres[i] == Answered(p.now, p.base, Renewed(p.base.tokens, s.next, rotate, at))
  {
    hide Renewed;
  }

  lemma GrantIsRefused(s: State, i: nat, rotate: bool, at: int, grant: TokenSet)
    requires i in s.pres && s.pres[i].Sent? && s.lock == Some(P(i)) && s.row.oauth && s.row.blob == Some(s.pres[i].base)
    requires s.pres[i].base.tokens.refresh.Some? && s.pres[i].base.tokens.refresh.value < s.next && s.pres[i].base.nonce < s.next
    requires grant.access.Some? && grant.expiresAt == None && grant.resource == s.row.url && grant.refresh == Some(s.next + 2)
    ensures var n := Run(s, [Edit(grant)] + [Answer(i, Renew(rotate, at)), Swap(i, true)] + [RereadMiss(i, true)]);
            && i in n.pres && n.pres[i] == Done(s.pres[i].now, Expired, false) && n.lock == None && Open(n.row) == Some(grant)
  {
    var early, late := [Edit(grant), Answer(i, Renew(rotate, at))], [Swap(i, true), RereadMiss(i, true)];
    assert [Edit(grant)] + [Answer(i, Renew(rotate, at)), Swap(i, true)] + [RereadMiss(i, true)] == early + late;
    hide Run, Renewed;
    RunConcat(s, early, late);
    GrantThenAnswer(s, i, rotate, at, grant);
    MissIsRefused(Run(s, early), i);
  }

  lemma MissIsRefused(s: State, i: nat)
    requires i in s.pres && s.pres[i].Answered? && s.row.blob != Some(s.pres[i].base)
    requires Open(s.row).Some? && Open(s.row).value.refresh != s.pres[i].base.tokens.refresh && Open(s.row).value.expiresAt == None
    ensures var n := Run(s, [Swap(i, true), RereadMiss(i, true)]);
            && i in n.pres && n.pres[i] == Done(s.pres[i].now, Expired, false) && n.lock == None && n.row == s.row
  {
    hide Run, Open;
    var s3 := DoSwap(s, i, true);
    assert s3 == s.(pres := s.pres[i := Missed(s.pres[i].now, s.pres[i].base, s.pres[i].renewed)]);
    RunTwo(s, Swap(i, true), RereadMiss(i, true));
    TheirsIsRefusedExactly(s3.row, s3.pres[i].base, s3.pres[i].now);
    hide TheirAnswer;
  }
}
