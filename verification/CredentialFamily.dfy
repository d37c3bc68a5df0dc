/**
 * The credential column of one upstream row: create, PATCH, sign-in, refresh, re-wrap and disconnect all write it, and
 * nothing in the column says which kind of payload it holds. Each handler is atomic; the refresh and the re-wrap are a
 * read and a later compare-and-swap. A URL is its normal form.
 */
module CredentialFamily {
  import opened Text

  type Url = nat
  type Param = nat

  datatype Auth = NoAuth | Bearer | Header | ApiKey | Custom | OAuth | Query

  datatype Family = TokenFamily | PairFamily | HeaderFamily

  function FamilyOf(a: Auth): Family {
    match a
    case OAuth => TokenFamily
    case Query => PairFamily
    case _ => HeaderFamily
  }

  /** A token set, with what it was minted for when it has tokens; a query pair; or a header-shaped config. */
  datatype Payload = TokenSet(client: nat, minted: Option<Url>, tokens: nat) | QueryPair(param: Param, value: nat) | HeaderConfig(config: nat)

  function PayloadFamily(p: Payload): Family {
    match p
    case TokenSet(_, _, _) => TokenFamily
    case QueryPair(_, _) => PairFamily
    case HeaderConfig(_) => HeaderFamily
  }

  /** Sealing draws a nonce, so two seals of one payload differ. */
  datatype Blob = Blob(nonce: nat, payload: Payload)

  datatype Row = Row(auth: Auth, url: Url, blob: Option<Blob>, stamp: nat)

  /** A member of a request body: not there, null, or a value. */
  datatype Field<T> = Absent | Null | Value(value: T)

  /** What an auth_config value can be: empty, the oauth client shape, the query pair shape, or any other object. */
  datatype Config = EmptyConfig | ClientShape(client: nat) | PairShape(param: Param, value: nat) | OtherShape

  /** `raw` is the value itself, kept as it is under a header-shaped type; None is an auth_type no build knows. */
  datatype Request = Request(
    url: Field<Url>, urlOk: bool, auth: Field<Option<Auth>>, config: Field<Config>, raw: nat,
    othersOk: bool)         // every check on name, slug, kind, transport and enabled passes, and so does sealing

  /** `carries`: the URL's query holds a piece naming the parameter. `kindOk`: the rules that tie kind, URL and type. */
  datatype Rules = Rules(carries: (Url, Param) -> bool, kindOk: (Url, Auth) -> bool)

  // ---- The handlers, as what they do ----

  predicate NewCredential(req: Request) {
    req.config.Value? && !req.config.value.EmptyConfig?
  }

  /** The shape rule of the type: oauth takes a client identity, query a pair, the others anything. */
  function PayloadFor(auth: Auth, req: Request): Option<Payload>
    requires NewCredential(req)
  {
    match auth
    case OAuth => if req.config.value.ClientShape? then Some(TokenSet(req.config.value.client, None, 0)) else None
    case Query => if req.config.value.PairShape? then Some(QueryPair(req.config.value.param, req.config.value.value)) else None
    case _ => Some(HeaderConfig(req.raw))
  }

  function MergedAuth(row: Row, req: Request): Option<Auth> {
    match req.auth
    case Absent => Some(row.auth)
    case Null => None
    case Value(a) => a
  }

  function MergedUrl(row: Row, req: Request): Url {
    if req.url.Value? then req.url.value else row.url
  }

  predicate AcrossOAuth(row: Row, auth: Auth) {
    auth != row.auth && (row.auth.OAuth? || auth.OAuth?)
  }

  /** The removals a PATCH makes: none was named, an oauth row moved, or the type crossed oauth. */
  predicate Clears(row: Row, req: Request, auth: Auth) {
    || req.auth == Value(Some(NoAuth))
    || (row.auth.OAuth? && MergedUrl(row, req) != row.url && !req.config.Value?)
    || (AcrossOAuth(row, auth) && !req.config.Value?)
  }

  /** The parameter a merged query row sends under: the body's, else the one the row had stored. */
  function SentParam(row: Row, req: Request): Option<Param> {
    if NewCredential(req) && req.config.value.PairShape? then Some(req.config.value.param)
    else if row.auth.Query? && row.blob.Some? && row.blob.value.payload.QueryPair? then Some(row.blob.value.payload.param)
    else None
  }

  predicate Refused(rules: Rules, row: Row, req: Request) {
    var auth := MergedAuth(row, req);
    || !req.othersOk
    || (req.url != Absent && (req.url.Null? || !req.urlOk))
    || auth == None
    || !rules.kindOk(MergedUrl(row, req), auth.value)
    || (req.auth == Value(Some(NoAuth)) && NewCredential(req))
    || (auth.value != row.auth && (row.auth.Query? || auth.value.Query?)
        && !Clears(row, req, auth.value) && !AcrossOAuth(row, auth.value) && !NewCredential(req))
    || (NewCredential(req) && PayloadFor(auth.value, req) == None)
    || (auth.value.Query? && (req.url != Absent || auth.value != row.auth || req.config.Value?)
        && SentParam(row, req).Some? && rules.carries(MergedUrl(row, req), SentParam(row, req).value))
  }

  function Patched(row: Row, req: Request, nonce: nat, stamp: nat): Row
    requires MergedAuth(row, req).Some? && (NewCredential(req) ==> PayloadFor(MergedAuth(row, req).value, req).Some?)
  {
    var auth := MergedAuth(row, req).value;
    var blob :=
      if Clears(row, req, auth) || req.config == Value(EmptyConfig) then None
      else if NewCredential(req) then Some(Blob(nonce, PayloadFor(auth, req).value))
      else row.blob;
    Row(auth, MergedUrl(row, req), blob, stamp)
  }

  /** What create stores: types default to none, and a query row is never made without its pair. */
  function Created(rules: Rules, req: Request, nonce: nat, stamp: nat): Option<Row> {
    var auth := if req.auth.Value? then req.auth.value else Some(NoAuth);
    if !req.othersOk || !req.url.Value? || !req.urlOk || auth == None then None
    else if !rules.kindOk(req.url.value, auth.value) then None
    else if auth.value.NoAuth? && NewCredential(req) then None
    else if auth.value.Query? && !NewCredential(req) then None
    else if NewCredential(req) then
      var p := PayloadFor(auth.value, req);
      if p == None || (auth.value.Query? && rules.carries(req.url.value, p.value.param)) then None
      else Some(Row(auth.value, req.url.value, Some(Blob(nonce, p.value)), stamp))
    else Some(Row(auth.value, req.url.value, None, stamp))
  }

  // ---- The PATCH handler ----

  class Upstream {
    var row: Row
    const rules: Rules

    constructor (row: Row, rules: Rules)
      ensures this.row == row && this.rules == rules
    {
      this.row, this.rules := row, rules;
    }

    /** The handler in its own order: every refusal leaves the row as it was. */
    method Patch(req: Request, nonce: nat, stamp: nat) returns (ok: bool)
      modifies this
      ensures ok <==> !old(Refused(rules, row, req))
      ensures row == if ok then Patched(old(row), req, nonce, stamp) else old(row)
    {
      var u, before := row, row;
      if req.url != Absent && (req.url.Null? || !req.urlOk) { return false; }
      var urlChanged := req.url.Value? && req.url.value != u.url;
      var typeChanged := req.auth.Value? && req.auth.value != Some(u.auth);
      var acrossOAuth := typeChanged && (u.auth.OAuth? || req.auth.value == Some(OAuth));
      var clearAuth :=
        req.auth == Value(Some(NoAuth)) || (u.auth.OAuth? && urlChanged && !req.config.Value?) || (acrossOAuth && !req.config.Value?);
      var cleared := clearAuth && u.blob.Some?;
      if !req.othersOk { return false; }
      if req.url.Value? {
        u := u.(url := req.url.value);
      }
      if req.auth != Absent {
        if req.auth.Null? || req.auth.value == None { return false; }
        u := u.(auth := req.auth.value.value);
      }
      if !rules.kindOk(u.url, u.auth) { return false; }
      var newCredential := req.config.Value? && !req.config.value.EmptyConfig?;
      if req.auth == Value(Some(NoAuth)) && newCredential { return false; }
      if typeChanged && (before.auth.Query? || u.auth.Query?) && !clearAuth && !acrossOAuth && !newCredential { return false; }
      var queryParam: Option<Param> := None;
      if req.config.Value? {
        if newCredential {
          var payload := PayloadFor(u.auth, req);
          if payload == None { return false; }
          if u.auth.Query? {
            queryParam := Some(payload.value.param);
          }
          u := u.(blob := Some(Blob(nonce, payload.value)));
        } else {
          u := u.(blob := None);
        }
      }
      if clearAuth {
        u := u.(blob := None);
      }
      if u.auth.Query? && (req.url != Absent || typeChanged || req.config.Value?) {
        if queryParam == None && before.auth.Query? {
          queryParam := if before.blob.Some? && before.blob.value.payload.QueryPair? then Some(before.blob.value.payload.param) else None;
        }
        if queryParam.Some? && rules.carries(u.url, queryParam.value) { return false; }
      }
      u := u.(stamp := stamp);
      var writeAuth := req.config.Value? || cleared;
      row := if writeAuth then u else u.(blob := row.blob);
      return true;
    }
  }

  // ---- Runs ----

  /** `refreshes` and `rewraps` are the bytes read for a later swap; `flows` the row a sign-in was started on. */
  datatype State = State(row: Row, refreshes: map<nat, Blob>, rewraps: map<nat, Blob>, flows: map<nat, Row>, next: nat)

  datatype Step =
    | PatchRow(req: Request)
    | BeginRefresh(i: nat)
    | SwapRefreshed(i: nat)
    | BeginRewrap(k: nat)
    | SwapRewrapped(k: nat)
    | StartFlow(j: nat)
    | Connect(j: nat, client: nat)
    | Disconnect(seen: nat)

  predicate Enabled(s: State, a: Step) {
    match a
    case PatchRow(_) => true
    case BeginRefresh(_) => s.row.auth.OAuth? && s.row.blob.Some? && s.row.blob.value.payload.TokenSet?
    case SwapRefreshed(i) => i in s.refreshes && s.refreshes[i].payload.TokenSet?
    case BeginRewrap(_) => s.row.blob.Some?
    case SwapRewrapped(k) => k in s.rewraps
    case StartFlow(_) => s.row.auth.OAuth?
    case Connect(j, _) => j in s.flows
    case Disconnect(_) => true
  }

  /** The compare-and-swap on the stored bytes: it looks at neither the type nor updated_at. */
  function Swapped(s: State, base: Blob, payload: Payload): State {
    if s.row.blob == Some(base) then s.(row := s.row.(blob := Some(Blob(s.next, payload))), next := s.next + 1) else s
  }

  /** The write of a sign-in or a disconnect: the row is still oauth and has not been edited since it was seen. */
  function Connected(s: State, seen: nat, payload: Option<Payload>): State {
    if s.row.auth.OAuth? && s.row.stamp == seen then
      var blob := if payload == None then None else Some(Blob(s.next, payload.value));
      s.(row := s.row.(blob := blob, stamp := s.next + 1), next := s.next + 2)
    else s
  }

  function Apply(rules: Rules, s: State, a: Step): State
    requires Enabled(s, a)
  {
    match a
    case PatchRow(req) =>
      if Refused(rules, s.row, req) then s else s.(row := Patched(s.row, req, s.next, s.next + 1), next := s.next + 2)
    case BeginRefresh(i) => s.(refreshes := s.refreshes[i := s.row.blob.value])
    case SwapRefreshed(i) => Swapped(s, s.refreshes[i], s.refreshes[i].payload.(tokens := s.next))
    case BeginRewrap(k) => s.(rewraps := s.rewraps[k := s.row.blob.value])
    case SwapRewrapped(k) => Swapped(s, s.rewraps[k], s.rewraps[k].payload)
    case StartFlow(j) => s.(flows := s.flows[j := s.row])
    case Connect(j, client) => Connected(s, s.flows[j].stamp, Some(TokenSet(client, Some(s.flows[j].url), s.next)))
    case Disconnect(seen) => Connected(s, seen, None)
  }

  function Run(rules: Rules, s: State, steps: seq<Step>): State
    decreases |steps|
  {
    if steps == [] then s else Run(rules, if Enabled(s, steps[0]) then Apply(rules, s, steps[0]) else s, steps[1..])
  }

  /** The stored payload was written under the family the row is read under. */
  predicate Fits(row: Row) {
    row.blob.Some? ==> PayloadFamily(row.blob.value.payload) == FamilyOf(row.auth)
  }

  /** Tokens are stored only beside the URL they were minted for. */
  predicate AtHome(row: Row) {
    row.blob.Some? && row.blob.value.payload.TokenSet? && row.blob.value.payload.minted.Some? ==>
      row.blob.value.payload.minted.value == row.url
  }

  /** A query row's URL does not already carry the parameter its credential sets. */
  predicate NamedOnce(rules: Rules, row: Row) {
    row.auth.Query? && row.blob.Some? && row.blob.value.payload.QueryPair? ==>
      !rules.carries(row.url, row.blob.value.payload.param)
  }

  predicate RowOk(rules: Rules, row: Row) {
    Fits(row) && AtHome(row) && NamedOnce(rules, row)
  }

  /** A sign-in that still matches updated_at was started for the row's URL. */
  ghost predicate Inv(rules: Rules, s: State) {
    && RowOk(rules, s.row) && s.row.stamp < s.next
    && forall j :: j in s.flows ==> s.flows[j].stamp < s.next && (s.flows[j].stamp == s.row.stamp ==> s.flows[j].url == s.row.url)
  }

  lemma PatchKeepsTheRow(rules: Rules, row: Row, req: Request, nonce: nat, stamp: nat)
    requires RowOk(rules, row) && !Refused(rules, row, req)
    ensures RowOk(rules, Patched(row, req, nonce, stamp))
  {
    var auth, n := MergedAuth(row, req).value, Patched(row, req, nonce, stamp);
    if n.blob.Some? && n.blob == row.blob && !NewCredential(req) {
      // the blob was kept: the type is the old one, or another header-shaped one
      assert auth == row.auth || (FamilyOf(auth) == HeaderFamily && FamilyOf(row.auth) == HeaderFamily);
    }
  }

  lemma StepInv(rules: Rules, s: State, a: Step)
    requires Inv(rules, s) && Enabled(s, a)
    ensures Inv(rules, Apply(rules, s, a))
  {
    if a.PatchRow? && !Refused(rules, s.row, a.req) {
      PatchKeepsTheRow(rules, s.row, a.req, s.next, s.next + 1);
      hide Refused, Patched, RowOk;
      assert Patched(s.row, a.req, s.next, s.next + 1).stamp == s.next + 1 by { PatchStamps(s.row, a.req, s.next, s.next + 1); }
    } else {
      hide Refused, Patched;
    }
  }

  lemma PatchStamps(row: Row, req: Request, nonce: nat, stamp: nat)
    requires MergedAuth(row, req).Some? && (NewCredential(req) ==> PayloadFor(MergedAuth(row, req).value, req).Some?)
    ensures Patched(row, req, nonce, stamp).stamp == stamp
  {
  }

  lemma {:induction false} RunInv(rules: Rules, s: State, steps: seq<Step>)
    requires Inv(rules, s)
    ensures Inv(rules, Run(rules, s, steps))
    decreases |steps|
  {
    hide Inv, Enabled, Apply;
    if steps != [] {
      if Enabled(s, steps[0]) { StepInv(rules, s, steps[0]); }
      RunInv(rules, if Enabled(s, steps[0]) then Apply(rules, s, steps[0]) else s, steps[1..]);
    }
  }

  function Start(row: Row, next: nat): State {
    State(row, map[], map[], map[], next)
  }

  /**
   * Create answers a request that names a URL and a type as PATCH answers it on an empty row of that type: the same
   * refusals and the same row, but that create also refuses a query row without its pair.
   */
  lemma CreateAgreesWithPatch(rules: Rules, req: Request, nonce: nat, stamp: nat, was: Url, seen: nat)
    requires req.url.Value? && req.auth.Value? && req.auth.value.Some?
    ensures var auth, made := req.auth.value.value, Created(rules, req, nonce, stamp);
            var blank := Row(auth, was, None, seen);
            && (made.Some? <==> !Refused(rules, blank, req) && (auth.Query? ==> NewCredential(req)))
            && (made.Some? ==> made.value == Patched(blank, req, nonce, stamp))
  {
  }

  lemma CreatedIsOk(rules: Rules, req: Request, nonce: nat, stamp: nat)
    requires Created(rules, req, nonce, stamp).Some?
    ensures RowOk(rules, Created(rules, req, nonce, stamp).value) && Created(rules, req, nonce, stamp).value.stamp == stamp
  {
  }

  /**
   * The credential family invariant: from any row that create made, over every sequence of PATCHes, refreshes, re-wraps,
   * sign-ins and disconnects, the stored payload is of the family of the current auth_type, tokens stand only beside the
   * URL they were minted for, and a query row's URL does not carry its own parameter.
   */
  lemma PayloadFitsTheType(rules: Rules, req: Request, nonce: nat, stamp: nat, next: nat, steps: seq<Step>)
    requires Created(rules, req, nonce, stamp).Some? && stamp < next
    ensures var row := Run(rules, Start(Created(rules, req, nonce, stamp).value, next), steps).row;
            Fits(row) && AtHome(row) && NamedOnce(rules, row)
  {
    CreatedIsOk(rules, req, nonce, stamp);
    RunInv(rules, Start(Created(rules, req, nonce, stamp).value, next), steps);
    hide Run, Created;
  }

  /**
   * What an accepted PATCH does to a fitting credential: it goes exactly when the request clears it or replaces it, and
   * one that stays under a new type stays within the header-shaped types.
   */
  lemma KeptCredentialKeepsItsMeaning(rules: Rules, row: Row, req: Request, nonce: nat, stamp: nat)
    requires RowOk(rules, row) && row.blob.Some? && row.blob.value.nonce != nonce && !Refused(rules, row, req)
    ensures var n := Patched(row, req, nonce, stamp);
            && (n.blob == row.blob <==> !req.config.Value? && !Clears(row, req, n.auth))
            && (n.blob == row.blob && n.auth != row.auth ==> FamilyOf(n.auth) == FamilyOf(row.auth) == HeaderFamily)
            && (n.blob == row.blob && row.auth.OAuth? ==> n.url == row.url)
  {
  }

  /**
   * What is stored is what the request carried: under oauth the client identity and no tokens, under query the pair, under
   * any other type the value itself; the type and the URL are the request's, or else the row's.
   */
  lemma WhatWasCarriedIsStored(rules: Rules, row: Row, req: Request, nonce: nat, stamp: nat)
    requires req.config.Value? && !req.config.value.EmptyConfig? && !Refused(rules, row, req)
    ensures var n := Patched(row, req, nonce, stamp);
            && n.stamp == stamp
            && n.auth == (if req.auth.Value? then req.auth.value.value else row.auth)
            && n.url == (if req.url.Value? then req.url.value else row.url)
            && n.blob == Some(Blob(nonce,
                 if n.auth.OAuth? then TokenSet(req.config.value.client, None, 0)
                 else if n.auth.Query? then QueryPair(req.config.value.param, req.config.value.value)
                 else HeaderConfig(req.raw)))
    ensures Patched(row, req, nonce, stamp).auth.OAuth? ==> req.config.value.ClientShape?
    ensures Patched(row, req, nonce, stamp).auth.Query? ==> req.config.value.PairShape?
  {
  }

  /** The wrong shape for the type is refused, whatever else the request says. */
  lemma WrongShapeIsRefused(rules: Rules, row: Row, req: Request)
    requires req.config.Value? && !req.config.value.EmptyConfig?
    requires (req.auth == Value(Some(OAuth)) && !req.config.value.ClientShape?) || (req.auth == Value(Some(Query)) && !req.config.value.PairShape?)
    ensures Refused(rules, row, req)
  {
  }

  /** Outside PATCH: a refresh changes the tokens alone, a re-wrap the bytes alone, a sign-in stores tokens for the URL it was started on. */
  lemma OtherWritersStore(rules: Rules, s: State, a: Step)
    requires Enabled(s, a) && !a.PatchRow?
    ensures var n := Apply(rules, s, a);
            && n.row.auth == s.row.auth && n.row.url == s.row.url
            && (a.SwapRefreshed? && s.row.blob == Some(s.refreshes[a.i]) ==>
                  n.row.blob == Some(Blob(s.next, TokenSet(s.refreshes[a.i].payload.client, s.refreshes[a.i].payload.minted, s.next))))
            && (a.SwapRewrapped? && s.row.blob == Some(s.rewraps[a.k]) ==> n.row.blob == Some(Blob(s.next, s.rewraps[a.k].payload)))
            && (a.Connect? && s.row.auth.OAuth? && s.row.stamp == s.flows[a.j].stamp ==>
                  n.row.blob == Some(Blob(s.next, TokenSet(a.client, Some(s.flows[a.j].url), s.next))))
            && (a.Disconnect? && s.row.auth.OAuth? && s.row.stamp == a.seen ==> n.row.blob == None)
            && (n.row.blob != s.row.blob ==> a.SwapRefreshed? || a.SwapRewrapped? || a.Connect? || a.Disconnect?)
  {
  }
}
