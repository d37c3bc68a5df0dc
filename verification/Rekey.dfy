/**
 * The keyring's envelope and the rekey run. AES-GCM and the key fingerprint stay uninterpreted; a run is checked for
 * every cipher that opens what it sealed, and what does not need even that is proved for any sealing function.
 */
module Rekey {
  import opened Base64
  import opened Text

  /** `seal` takes the key, the plaintext, the authenticated data and a nonce; it can fail, as `open` can. */
  datatype Crypto = Crypto(
    fingerprint: Bytes -> Bytes,
    seal: (Bytes, Bytes, Bytes, nat) -> Option<Bytes>,
    open: (Bytes, Bytes, Bytes) -> Option<Bytes>)

  const V1_PREFIX: Bytes := [0x76, 0x31, 0x3A]
  const NO_AAD: Bytes := []
  const FINGERPRINT_LEN := 16

  predicate IsFingerprint(s: Bytes) {
    |s| == FINGERPRINT_LEN && forall i :: 0 <= i < |s| ==> 0x30 <= s[i] <= 0x39 || 0x61 <= s[i] <= 0x66
  }

  /** What is used of the primitives: an authenticated cipher opens what it sealed, and a fingerprint is 16 hex digits. */
  ghost predicate Sound(c: Crypto) {
    && (forall key :: IsFingerprint(c.fingerprint(key)))
    && (forall key, plain, aad, nonce, raw ::
          c.seal(key, plain, aad, nonce) == Some(raw) ==> c.open(key, raw, aad) == Some(plain))
  }

  /** `current` is empty when there is none. */
  datatype Keyring = Keyring(current: Bytes, previous: seq<Bytes>)

  function All(k: Keyring): seq<Bytes> {
    (if k.current == [] then [] else [k.current]) + k.previous
  }

  function Fingerprint(c: Crypto, k: Keyring): Bytes {
    if k.current == [] then [] else c.fingerprint(k.current)
  }

  function ByFingerprint(c: Crypto, keys: seq<Bytes>, fp: Bytes): Option<Bytes> {
    if keys == [] then None else if c.fingerprint(keys[0]) == fp then Some(keys[0]) else ByFingerprint(c, keys[1..], fp)
  }

  predicate IsV1(encoded: Bytes) {
    HasPrefix(encoded, V1_PREFIX)
  }

  /** The v1 form: the prefix, the fingerprint, a colon, the base64 of the sealed bytes. */
  function Envelope(fp: Bytes, sealed: Bytes): Bytes {
    V1_PREFIX + fp + [COLON] + Encode64(sealed)
  }

  function Seal(c: Crypto, k: Keyring, plain: Bytes, nonce: nat): Option<Bytes> {
    var fp := Fingerprint(c, k);
    var sealed := c.seal(k.current, plain, fp, nonce);
    if sealed == None then None else Some(Envelope(fp, sealed.value))
  }

  datatype Opened = Opened(plain: Bytes, key: Bytes) | UnknownKey | InvalidCipher

  function ColonAt(s: Bytes): (i: nat)
    ensures i <= |s| && (i < |s| ==> s[i] == COLON) && forall j :: 0 <= j < i ==> s[j] != COLON
  {
    if s == [] || s[0] == COLON then 0 else 1 + ColonAt(s[1..])
  }

  function OpenV1(c: Crypto, k: Keyring, rest: Bytes): Opened {
    var i := ColonAt(rest);
    var fp := rest[..i];
    if i == |rest| || !IsFingerprint(fp) then InvalidCipher
    else
      var key := ByFingerprint(c, All(k), fp);
      if key == None then UnknownKey
      else
        var raw := Decode64(rest[i + 1..]);
        if raw == None then InvalidCipher
        else
          var plain := c.open(key.value, raw.value, fp);
          if plain == None then InvalidCipher else Opened(plain.value, fp)
  }

  /** A legacy value is tried under every key, the current one first. */
  function OpenLegacy(c: Crypto, keys: seq<Bytes>, raw: Bytes): Opened {
    if keys == [] then InvalidCipher
    else
      var plain := c.open(keys[0], raw, NO_AAD);
      if plain.Some? then Opened(plain.value, c.fingerprint(keys[0])) else OpenLegacy(c, keys[1..], raw)
  }

  function Open(c: Crypto, k: Keyring, encoded: Bytes): Opened {
    if IsV1(encoded) then OpenV1(c, k, encoded[|V1_PREFIX|..])
    else
      var raw := Decode64(encoded);
      if raw == None then InvalidCipher else OpenLegacy(c, All(k), raw.value)
  }

  // ---- The envelope ----

  /** No base64 text is mistaken for the v1 form. */
  lemma LegacyIsNeverV1(raw: Bytes)
    ensures !IsV1(Encode64(raw))
  {
    Base64HasNoColon(raw);
    assert |Encode64(raw)| >= 3 ==> Encode64(raw)[..3][2] != COLON;
  }

  lemma {:induction false} Base64HasNoColon(v: Bytes)
    ensures forall i :: 0 <= i < |Encode64(v)| ==> Encode64(v)[i] != COLON
    decreases |v|
  {
    forall x: sextet ensures Letter(x) != COLON { NotAColon(x); }
    hide Letter;
    if |v| > 2 { Base64HasNoColon(v[3..]); }
  }

  lemma NotAColon(x: sextet)
    ensures Letter(x) != COLON
  {
  }

  lemma EnvelopeParts(fp: Bytes, sealed: Bytes)
    requires IsFingerprint(fp)
    ensures var e := Envelope(fp, sealed);
            && IsV1(e) && e != []
            && (var rest := e[|V1_PREFIX|..];
                ColonAt(rest) == |fp| < |rest| && rest[..|fp|] == fp && rest[|fp| + 1..] == Encode64(sealed))
  {
    var e := Envelope(fp, sealed);
    var rest := fp + [COLON] + Encode64(sealed);
    assert e == V1_PREFIX + rest;
    assert e[..3] == V1_PREFIX && e[3..] == rest;
    assert forall i :: 0 <= i < |fp| ==> rest[i] == fp[i];
    assert rest[|fp|] == COLON;
  }

  /** What a keyring seals it opens, under its current key, whatever previous keys it holds or loses. */
  lemma SealThenOpen(c: Crypto, k: Keyring, plain: Bytes, nonce: nat, previous: seq<Bytes>)
    requires Sound(c) && k.current != [] && Seal(c, k, plain, nonce).Some?
    ensures Open(c, Keyring(k.current, previous), Seal(c, k, plain, nonce).value) == Opened(plain, Fingerprint(c, k))
  {
    var fp := Fingerprint(c, k);
    var sealed := c.seal(k.current, plain, fp, nonce).value;
    EnvelopeParts(fp, sealed);
    Base64RoundTrip(sealed);
    hide IsV1, Envelope, Decode64, Encode64, ColonAt;
    assert All(Keyring(k.current, previous))[0] == k.current;
  }

  /** What is stored: "v1:", the current key's fingerprint, a colon, and the base64 of what the cipher made under that fingerprint. */
  lemma SealedForm(c: Crypto, k: Keyring, plain: Bytes, nonce: nat)
    requires k.current != []
    ensures var fp := c.fingerprint(k.current); var made := c.seal(k.current, plain, fp, nonce);
            Seal(c, k, plain, nonce) == if made == None then None else Some([118, 49, 58] + fp + [58] + Encode64(made.value))
  {
    hide Encode64;
  }

  /** A value stored before v1 opens under the first key that can open it, with no authenticated data, the current key first. */
  lemma {:induction false} LegacyOpens(c: Crypto, before: seq<Bytes>, key: Bytes, after: seq<Bytes>, raw: Bytes)
    requires c.open(key, raw, []).Some? && forall other :: other in before ==> c.open(other, raw, []) == None
    ensures OpenLegacy(c, before + [key] + after, raw) == Opened(c.open(key, raw, []).value, c.fingerprint(key))
    decreases |before|
  {
    var keys := before + [key] + after;
    if before != [] {
      assert keys[0] == before[0] && keys[1..] == before[1..] + [key] + after;
      assert before[0] in before && forall other :: other in before[1..] ==> other in before;
      LegacyOpens(c, before[1..], key, after, raw);
    } else {
      assert keys[0] == key;
    }
  }

  lemma {:induction false} LegacyStaysShut(c: Crypto, keys: seq<Bytes>, raw: Bytes)
    requires forall key :: key in keys ==> c.open(key, raw, []) == None
    ensures OpenLegacy(c, keys, raw) == InvalidCipher
    decreases |keys|
  {
    if keys != [] {
      assert keys[0] in keys && forall key :: key in keys[1..] ==> key in keys;
      LegacyStaysShut(c, keys[1..], raw);
    }
  }

  /** Said of stored values: the base64 of what some key of the ring opens, and of what none does. */
  lemma LegacyValues(c: Crypto, k: Keyring, before: seq<Bytes>, key: Bytes, after: seq<Bytes>, raw: Bytes)
    requires k.current != []
    ensures [k.current] + k.previous == before + [key] + after && c.open(key, raw, []).Some?
            && (forall other :: other in before ==> c.open(other, raw, []) == None) ==>
              Open(c, k, Encode64(raw)) == Opened(c.open(key, raw, []).value, c.fingerprint(key))
    ensures (forall other :: other in [k.current] + k.previous ==> c.open(other, raw, []) == None) ==>
              Open(c, k, Encode64(raw)) == InvalidCipher
  {
    LegacyIsNeverV1(raw);
    Base64RoundTrip(raw);
    hide IsV1, Encode64, Decode64;
    assert All(k) == [k.current] + k.previous;
    if c.open(key, raw, []).Some? && forall other :: other in before ==> c.open(other, raw, []) == None {
      LegacyOpens(c, before, key, after, raw);
    }
    if forall other :: other in All(k) ==> c.open(other, raw, []) == None { LegacyStaysShut(c, All(k), raw); }
  }

  /** Sixteen lower-case hex digits. */
  predicate SixteenHex(s: Bytes) {
    |s| == 16 && forall i :: 0 <= i < 16 ==> 48 <= s[i] <= 57 || 97 <= s[i] <= 102
  }

  lemma {:induction false} FirstKeyNamed(c: Crypto, before: seq<Bytes>, key: Bytes, after: seq<Bytes>)
    requires forall other :: other in before ==> c.fingerprint(other) != c.fingerprint(key)
    ensures ByFingerprint(c, before + [key] + after, c.fingerprint(key)) == Some(key)
    decreases |before|
  {
    var keys := before + [key] + after;
    if before != [] {
      assert keys[0] == before[0] && keys[1..] == before[1..] + [key] + after;
      assert before[0] in before && forall other :: other in before[1..] ==> other in before;
      FirstKeyNamed(c, before[1..], key, after);
    } else {
      assert keys[0] == key;
    }
  }

  lemma {:induction false} NoKeyNamed(c: Crypto, keys: seq<Bytes>, fp: Bytes)
    requires forall key :: key in keys ==> c.fingerprint(key) != fp
    ensures ByFingerprint(c, keys, fp) == None
    decreases |keys|
  {
    if keys != [] {
      assert keys[0] in keys && forall key :: key in keys[1..] ==> key in keys;
      NoKeyNamed(c, keys[1..], fp);
    }
  }

  /**
   * A v1 value opens under the key its fingerprint names and no other: with the fingerprint as authenticated data, or not at
   * all; a fingerprint no key has is an unknown key, and one that is not sixteen hex digits is no cipher text.
   */
  lemma EnvelopeNamesItsKey(c: Crypto, k: Keyring, fp: Bytes, raw: Bytes, before: seq<Bytes>, key: Bytes, after: seq<Bytes>)
    requires k.current != [] && SixteenHex(fp)
    ensures [k.current] + k.previous == before + [key] + after && c.fingerprint(key) == fp
            && (forall other :: other in before ==> c.fingerprint(other) != fp) ==>
              var plain := c.open(key, raw, fp);
              Open(c, k, [118, 49, 58] + fp + [58] + Encode64(raw)) == if plain == None then InvalidCipher else Opened(plain.value, fp)
    ensures (forall other :: other in [k.current] + k.previous ==> c.fingerprint(other) != fp) ==>
              Open(c, k, [118, 49, 58] + fp + [58] + Encode64(raw)) == UnknownKey
  {
    assert IsFingerprint(fp);
    EnvelopeParts(fp, raw);
    Base64RoundTrip(raw);
    hide IsV1, Encode64, Decode64, ColonAt, IsFingerprint;
    assert All(k) == [k.current] + k.previous;
    if [k.current] + k.previous == before + [key] + after && c.fingerprint(key) == fp && forall other :: other in before ==> c.fingerprint(other) != fp {
      FirstKeyNamed(c, before, key, after);
    }
    if forall other :: other in All(k) ==> c.fingerprint(other) != fp { NoKeyNamed(c, All(k), fp); }
  }

  lemma NoFingerprintNoCipher(c: Crypto, k: Keyring, text: Bytes, rest: Bytes)
    requires (forall i :: 0 <= i < |text| ==> text[i] != 58) && !SixteenHex(text)
    ensures Open(c, k, [118, 49, 58] + text + [58] + rest) == InvalidCipher && Open(c, k, [118, 49, 58] + text) == InvalidCipher
  {
    var a, b := [118, 49, 58] + text + [58] + rest, [118, 49, 58] + text;
    assert a[..3] == V1_PREFIX && b[..3] == V1_PREFIX && a[3..] == text + [58] + rest && b[3..] == text;
    assert a[3..][|text|] == 58 && a[3..][..|text|] == text && b[3..][..|text|] == text;
    assert ColonAt(a[3..]) == |text| by { assert forall i :: 0 <= i < |text| ==> a[3..][i] == text[i]; }
    assert ColonAt(b[3..]) == |text|;
    assert !IsFingerprint(text);
    hide ColonAt, Decode64;
  }

  /** A v1 value that opens under the current key goes on opening when the previous keys are gone. */
  lemma CurrentStays(c: Crypto, k: Keyring, encoded: Bytes, previous: seq<Bytes>)
    requires Sound(c) && IsV1(encoded) && Open(c, k, encoded).Opened? && Open(c, k, encoded).key == Fingerprint(c, k)
    ensures k.current != [] && Open(c, Keyring(k.current, previous), encoded) == Open(c, k, encoded)
  {
    hide Decode64, ColonAt;
    var rest := encoded[|V1_PREFIX|..];
    hide IsV1;
    assert IsFingerprint(rest[..ColonAt(rest)]);
    assert k.current != [];
    assert All(k)[0] == k.current && All(Keyring(k.current, previous))[0] == k.current;
  }

  /** Rotating the key in loses nothing: under a new current key, the old one first among the previous, all still opens. */
  lemma RotationKeepsOpening(c: Crypto, k: Keyring, newKey: Bytes, encoded: Bytes)
    requires newKey != [] && k.current != [] && Open(c, k, encoded).Opened?
    requires IsV1(encoded) ==> c.fingerprint(newKey) != Open(c, k, encoded).key
    requires !IsV1(encoded) && Decode64(encoded).Some? ==> c.open(newKey, Decode64(encoded).value, NO_AAD) == None
    ensures Open(c, Keyring(newKey, [k.current] + k.previous), encoded) == Open(c, k, encoded)
  {
    var n := Keyring(newKey, [k.current] + k.previous);
    assert All(n) == [newKey] + All(k);
    assert All(n)[0] == newKey && All(n)[1..] == All(k);
    hide Decode64, ColonAt, All;
  }

  // ---- The run ----

  datatype Row = Row(id: nat, name: nat, stored: Bytes)

  /** An empty replacement leaves the row alone. */
  datatype Rewrite = Rewritten(next: seq<Bytes>) | Dead(ids: seq<nat>, names: seq<nat>) | Failed(id: nat)

  /** Any sealing function, told which row it seals for (a nonce, in production). */
  type Sealer = (nat, Bytes) -> Option<Bytes>

  predicate Current(c: Crypto, k: Keyring, r: Row) {
    IsV1(r.stored) && Open(c, k, r.stored).Opened? && Open(c, k, r.stored).key == Fingerprint(c, k)
  }

  predicate IsDead(c: Crypto, k: Keyring, r: Row) {
    !Open(c, k, r.stored).Opened?
  }

  /** What row `i` gets: nothing when no key opens it or it is current, else a sealed value that opens to its plaintext. */
  predicate Replaces(c: Crypto, k: Keyring, sealer: Sealer, r: Row, i: nat, enc: Bytes) {
    if IsDead(c, k, r) || Current(c, k, r) then enc == []
    else
      var plain := Open(c, k, r.stored).plain;
      sealer(i, plain) == Some(enc) && Open(c, k, enc).Opened? && Open(c, k, enc).plain == plain
  }

  function DeadRows(c: Crypto, k: Keyring, rows: seq<Row>): seq<Row> {
    if rows == [] then []
    else DeadRows(c, k, rows[..|rows| - 1]) + if IsDead(c, k, rows[|rows| - 1]) then [rows[|rows| - 1]] else []
  }

  function Ids(rows: seq<Row>): seq<nat> {
    seq(|rows|, i requires 0 <= i < |rows| => rows[i].id)
  }

  function NamesOf(rows: seq<Row>): seq<nat> {
    seq(|rows|, i requires 0 <= i < |rows| => rows[i].name)
  }

  /** A row the sealing function failed, or whose new value did not open to its plaintext. */
  predicate SealFailed(c: Crypto, k: Keyring, sealer: Sealer, r: Row, i: nat) {
    !IsDead(c, k, r) && !Current(c, k, r) &&
    var enc := sealer(i, Open(c, k, r.stored).plain);
    enc == None || !Replaces(c, k, sealer, r, i, enc.value)
  }

  method RekeyRewriter(c: Crypto, k: Keyring, sealer: Sealer, rows: seq<Row>) returns (res: Rewrite)
    ensures res.Failed? <==> exists i :: 0 <= i < |rows| && SealFailed(c, k, sealer, rows[i], i)
    ensures res.Failed? ==> exists i :: 0 <= i < |rows| && SealFailed(c, k, sealer, rows[i], i) && res.id == rows[i].id
    ensures res.Dead? ==> DeadRows(c, k, rows) != [] && res.ids == Ids(DeadRows(c, k, rows)) && res.names == NamesOf(DeadRows(c, k, rows))
    ensures res.Rewritten? ==> DeadRows(c, k, rows) == [] && |res.next| == |rows|
    ensures res.Rewritten? ==> forall i :: 0 <= i < |rows| ==> Replaces(c, k, sealer, rows[i], i, res.next[i])
  {
    hide Open, IsV1, Fingerprint;
    var next: seq<Bytes> := [];
    var ids, names: seq<nat> := [], [];
    for i := 0 to |rows|
      invariant |next| == i && forall j :: 0 <= j < i ==> Replaces(c, k, sealer, rows[j], j, next[j])
      invariant ids == Ids(DeadRows(c, k, rows[..i])) && names == NamesOf(DeadRows(c, k, rows[..i]))
      invariant forall j :: 0 <= j < i ==> !SealFailed(c, k, sealer, rows[j], j)
    {
      var r := rows[i];
      assert rows[..i + 1][..i] == rows[..i];
      var enc: Bytes := [];
      var found := Open(c, k, r.stored);
      if !found.Opened? {
        ids, names := ids + [r.id], names + [r.name];
      } else if !(IsV1(r.stored) && found.key == Fingerprint(c, k)) {
        var sealed := sealer(i, found.plain);
        if sealed == None {
          assert SealFailed(c, k, sealer, rows[i], i);
          return Failed(r.id);
        }
        var check := Open(c, k, sealed.value);
        if !check.Opened? || check.plain != found.plain {
          assert SealFailed(c, k, sealer, rows[i], i);
          return Failed(r.id);
        }
        enc := sealed.value;
      }
      next := next + [enc];
    }
    assert rows[..|rows|] == rows;
    res := if ids != [] then Dead(ids, names) else Rewritten(next);
  }

  /** The rows after the run commits. */
  function After(rows: seq<Row>, next: seq<Bytes>): seq<Row>
    requires |next| == |rows|
  {
    seq(|rows|, i requires 0 <= i < |rows| => if next[i] == [] then rows[i] else rows[i].(stored := next[i]))
  }

  /** The dead list holds exactly the rows no key opens, in order. */
  lemma {:induction false} DeadAreDead(c: Crypto, k: Keyring, rows: seq<Row>, r: Row)
    ensures r in DeadRows(c, k, rows) <==> r in rows && IsDead(c, k, r)
  {
    if rows != [] {
      DeadAreDead(c, k, rows[..|rows| - 1], r);
      assert rows == rows[..|rows| - 1] + [rows[|rows| - 1]];
      hide IsDead;
    }
  }

  /** A successful run keeps every plaintext, whatever the sealing function does: a bad one is caught before the commit. */
  lemma PlaintextSurvives(c: Crypto, k: Keyring, sealer: Sealer, rows: seq<Row>, next: seq<Bytes>, i: nat)
    requires |next| == |rows| && DeadRows(c, k, rows) == []
    requires forall j :: 0 <= j < |rows| ==> Replaces(c, k, sealer, rows[j], j, next[j])
    requires i < |rows|
    ensures var before, after := Open(c, k, rows[i].stored), Open(c, k, After(rows, next)[i].stored);
            before.Opened? && after.Opened? && after.plain == before.plain
  {
    DeadAreDead(c, k, rows, rows[i]);
    hide Open;
    assert Replaces(c, k, sealer, rows[i], i, next[i]);
  }

  /** The production sealer: the keyring's own Seal, a fresh nonce for each row. */
  function Production(c: Crypto, k: Keyring, nonces: nat -> nat): Sealer {
    (i, plain) => Seal(c, k, plain, nonces(i))
  }

  /**
   * With the keyring's own Seal a successful run finishes: every row is v1 under the current key, opens to its old
   * plaintext with all previous keys removed, and is what the next run leaves alone.
   */
  lemma RekeyFinishes(c: Crypto, k: Keyring, nonces: nat -> nat, rows: seq<Row>, next: seq<Bytes>, i: nat)
    requires Sound(c) && |next| == |rows| && DeadRows(c, k, rows) == []
    requires forall j :: 0 <= j < |rows| ==> Replaces(c, k, Production(c, k, nonces), rows[j], j, next[j])
    requires i < |rows|
    ensures var r, was := After(rows, next)[i], Open(c, k, rows[i].stored);
            && was.Opened? && IsV1(r.stored)
            && Open(c, Keyring(k.current, []), r.stored) == Opened(was.plain, Fingerprint(c, k))
            && Open(c, k, r.stored) == Opened(was.plain, Fingerprint(c, k))
            && Current(c, k, r)
  {
    DeadAreDead(c, k, rows, rows[i]);
    assert Replaces(c, k, Production(c, k, nonces), rows[i], i, next[i]);
    var r := rows[i];
    if Current(c, k, r) {
      CurrentStays(c, k, r.stored, []);
    } else {
      var plain := Open(c, k, r.stored).plain;
      var sealed := Seal(c, k, plain, nonces(i));
      assert sealed == Some(next[i]);
      SealedIsUsable(c, k, plain, nonces(i));
      SealThenOpen(c, k, plain, nonces(i), []);
      SealThenOpen(c, k, plain, nonces(i), k.previous);
    }
    hide Open, Seal;
  }

  /** Without a current key nothing that Seal makes would open, so the run would have refused. */
  lemma NoKeyOpensNothing(c: Crypto, k: Keyring, plain: Bytes, nonce: nat)
    requires k.current == [] && Seal(c, k, plain, nonce).Some?
    ensures !Open(c, k, Seal(c, k, plain, nonce).value).Opened?
  {
    var sealed := c.seal(k.current, plain, [], nonce).value;
    var e := Envelope([], sealed);
    assert e[..3] == V1_PREFIX && e[3..] == [COLON] + Encode64(sealed);
    assert ColonAt(e[3..]) == 0;
    hide Decode64, Encode64;
  }

  lemma SealedIsUsable(c: Crypto, k: Keyring, plain: Bytes, nonce: nat)
    requires Seal(c, k, plain, nonce).Some? && Open(c, k, Seal(c, k, plain, nonce).value).Opened?
    ensures k.current != [] && IsV1(Seal(c, k, plain, nonce).value) && Seal(c, k, plain, nonce).value != []
  {
    if k.current == [] {
      NoKeyOpensNothing(c, k, plain, nonce);
    } else {
      hide Open;
      var e := Envelope(Fingerprint(c, k), c.seal(k.current, plain, Fingerprint(c, k), nonce).value);
      assert e[..3] == V1_PREFIX;
    }
  }

  /** A second run rewrites nothing, whatever its sealing function. */
  lemma SecondRunIsQuiet(c: Crypto, k: Keyring, nonces: nat -> nat, rows: seq<Row>, next: seq<Bytes>, sealer: Sealer, i: nat, enc: Bytes)
    requires Sound(c) && |next| == |rows| && DeadRows(c, k, rows) == []
    requires forall j :: 0 <= j < |rows| ==> Replaces(c, k, Production(c, k, nonces), rows[j], j, next[j])
    requires i < |rows|
    ensures Replaces(c, k, sealer, After(rows, next)[i], i, enc) <==> enc == []
    ensures !SealFailed(c, k, sealer, After(rows, next)[i], i) && !IsDead(c, k, After(rows, next)[i])
  {
    RekeyFinishes(c, k, nonces, rows, next, i);
    hide Open, IsV1;
  }
}
