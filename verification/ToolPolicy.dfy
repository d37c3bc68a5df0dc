/**
 * Tool identities, the rules written against them, and the merged catalogue of a group. One rule has to mean the same
 * on the aggregate endpoint, where a tool is called by its canonical name, and on a member endpoint, where it is called
 * by its own; and the tool a call is judged by has to be the tool it is routed to.
 */
module ToolPolicy {
  import opened Text
  import opened Slug

  datatype ToolIdentity = ToolIdentity(slug: string, name: string)

  const SEPARATOR := "__"

  function Canonical(id: ToolIdentity): string {
    id.slug + SEPARATOR + id.name
  }

  predicate SeparatorAt(s: string, i: nat) {
    i + 2 <= |s| && s[i] == '_' && s[i + 1] == '_'
  }

  /** Where the first separator starts; |s| when there is none. */
  function FirstSeparator(s: string, from: nat): (i: nat)
    requires from <= |s|
    ensures from <= i <= |s| && (i < |s| ==> SeparatorAt(s, i)) && forall j :: from <= j < i ==> !SeparatorAt(s, j)
    decreases |s| - from
  {
    if from == |s| || SeparatorAt(s, from) then from else FirstSeparator(s, from + 1)
  }

  /** One rule entry: (head, rest) when it is scoped to a member, otherwise the whole entry as the rest. */
  datatype Entry = Scoped(head: string, rest: string) | Unscoped(rest: string)

  function SplitEntry(e: string): Entry {
    var i := FirstSeparator(e, 0);
    if i == 0 || i == |e| then Unscoped(e) else Scoped(e[..i], e[i + 2..])
  }

  function ParseCanonical(s: string): Option<ToolIdentity> {
    match SplitEntry(s)
    case Unscoped(_) => None
    case Scoped(head, rest) => if rest == "" then None else Some(ToolIdentity(head, rest))
  }

  // ---- The identity ----

  /** A valid slug lends no byte to the separator, so the first one in slug + "__" + anything sits at the join. */
  lemma SplitsAtTheJoin(slug: string, rest: string)
    requires ValidSlug(slug)
    ensures SplitEntry(slug + SEPARATOR + rest) == Scoped(slug, rest)
  {
    var s := slug + SEPARATOR + rest;
    forall j: nat | j < |slug| ensures !SeparatorAt(s, j) {
      assert s[j] == slug[j];
      if j + 1 < |slug| {
        assert s[j + 1] == slug[j + 1];
        assert !(Separator(slug[j]) && Separator(slug[j + 1]));
      }
    }
    assert SeparatorAt(s, |slug|);
    assert s[..|slug|] == slug && s[|slug| + 2..] == rest;
  }

  /** Parsing undoes composing, whatever the tool is called. */
  lemma CanonicalRoundTrip(id: ToolIdentity)
    requires ValidSlug(id.slug) && id.name != ""
    ensures ParseCanonical(Canonical(id)) == Some(id)
  {
    SplitsAtTheJoin(id.slug, id.name);
  }

  /** And composing undoes parsing. */
  lemma ParseRoundTrip(s: string)
    requires ParseCanonical(s).Some?
    ensures Canonical(ParseCanonical(s).value) == s
  {
    var i := FirstSeparator(s, 0);
    assert s == s[..i] + SEPARATOR + s[i + 2..];
  }

  lemma CanonicalIsInjective(a: ToolIdentity, b: ToolIdentity)
    requires ValidSlug(a.slug) && ValidSlug(b.slug) && Canonical(a) == Canonical(b)
    ensures a == b
  {
    SplitsAtTheJoin(a.slug, a.name);
    SplitsAtTheJoin(b.slug, b.name);
  }

  /** With one underscore two members can own one name. */
  lemma OneUnderscoreIsAmbiguous(slug: string, word: string, name: string)
    requires ValidSlug(slug) && ValidSlug(slug + "_" + word)
    ensures slug != slug + "_" + word && slug + "_" + (word + "_" + name) == (slug + "_" + word) + "_" + name
  {
    assert slug + "_" + (word + "_" + name) == (slug + "_" + word) + "_" + name;
  }

  function MatchToolEntry(entry: string, id: ToolIdentity, prefix: bool): bool {
    if entry == "" then false
    else
      var e := SplitEntry(entry);
      if e.Scoped? && e.head != id.slug then false
      else if prefix then e.rest <= id.name
      else e.rest == id.name
  }

  /** An entry that spells an identity names that tool on that member and nothing else. */
  lemma ScopedEntryNamesOneTool(rule: ToolIdentity, id: ToolIdentity)
    requires ValidSlug(rule.slug)
    ensures MatchToolEntry(Canonical(rule), id, false) <==> rule == id
    ensures MatchToolEntry(Canonical(rule), id, true) <==> rule.slug == id.slug && rule.name <= id.name
  {
    SplitsAtTheJoin(rule.slug, rule.name);
  }

  /** No two underscores next to each other, except perhaps at the very start. */
  predicate NamesNoMember(entry: string) {
    (|entry| >= 2 && entry[..2] == "__") || forall i :: 0 < i < |entry| ==> entry[i - 1] != '_' || entry[i] != '_'
  }

  /** An entry with no member in it matches the own name on every member, whole or as a prefix; the empty one matches nothing. */
  lemma UnscopedEntryMatchesEverywhere(entry: string, id: ToolIdentity)
    requires NamesNoMember(entry)
    ensures MatchToolEntry(entry, id, false) <==> entry != "" && entry == id.name
    ensures MatchToolEntry(entry, id, true) <==> entry != "" && entry <= id.name
  {
    if |entry| >= 2 && entry[..2] == "__" {
      assert entry[0] == entry[..2][0] && entry[1] == entry[..2][1];
      assert SeparatorAt(entry, 0);
    } else {
      forall i: nat | i < |entry| ensures !SeparatorAt(entry, i) {
        if i + 1 < |entry| { assert entry[i + 1 - 1] != '_' || entry[i + 1] != '_'; }
      }
    }
  }

  // ---- The policy ----

  datatype Mode = Literal | Compose | Parse

  datatype FilterMode = NoMode | AllowMode | DenyMode

  datatype Filter = Filter(mode: FilterMode, tools: seq<string>, prefixes: seq<string>)

  /** A group's stored filter: absent, failing validation, or a filter. */
  datatype Stored = Absent | Invalid | Valid(filter: Filter)

  datatype Key = Key(allow: seq<string>, deny: seq<string>, malformed: bool)

  datatype Policy = Policy(
    filter: Filter, allow: seq<string>, deny: seq<string>, mode: Mode, slug: string,
    groupTarget: bool, malformed: bool, listsMalformed: bool)

  datatype Reason = KeyDenylist | KeyAllowlist | GroupFilter | InvalidFilter | UnknownIdentity | InvalidKeyLists

  const NO_FILTER := Filter(NoMode, [], [])

  function NewPolicy(group: Option<Stored>, key: Option<Key>, mode: Mode, slug: string): Policy {
    var k := if key.Some? then key.value else Key([], [], false);
    var p := Policy(NO_FILTER, k.allow, k.deny, mode, slug, group.Some?, false, k.malformed);
    if group == None || group.value.Absent? then p
    else if group.value.Invalid? then p.(malformed := true)
    else p.(filter := group.value.filter)
  }

  predicate Active(p: Policy) {
    p.allow != [] || p.deny != [] || p.filter.mode != NoMode || p.malformed || p.listsMalformed
  }

  function Identity(p: Policy, advertised: string): Option<ToolIdentity> {
    match p.mode
    case Compose => Some(ToolIdentity(p.slug, advertised))
    case Parse => ParseCanonical(advertised)
    case Literal => Some(ToolIdentity("", ""))
  }

  predicate Matches(p: Policy, entry: string, advertised: string, id: ToolIdentity, prefix: bool) {
    if p.mode != Literal then MatchToolEntry(entry, id, prefix)
    else entry != "" && if prefix then entry <= advertised else entry == advertised
  }

  predicate MatchesAny(p: Policy, entries: seq<string>, advertised: string, id: ToolIdentity, prefix: bool, allowSide: bool) {
    var skipUnscoped := allowSide && p.groupTarget && p.mode != Literal;
    exists e :: e in entries && !(skipUnscoped && SplitEntry(e).Unscoped?) && Matches(p, e, advertised, id, prefix)
  }

  function BlockedBy(p: Policy, advertised: string): Option<Reason> {
    if p.malformed then Some(InvalidFilter)
    else if p.listsMalformed then Some(InvalidKeyLists)
    else if !Active(p) then None
    else
      var id := Identity(p, advertised);
      if id == None then Some(UnknownIdentity)
      else if MatchesAny(p, p.deny, advertised, id.value, false, false) then Some(KeyDenylist)
      else if p.allow != [] && !MatchesAny(p, p.allow, advertised, id.value, false, true) then Some(KeyAllowlist)
      else
        var f := p.filter;
        match f.mode
        case AllowMode =>
          if |f.tools| + |f.prefixes| > 0
             && !MatchesAny(p, f.tools, advertised, id.value, false, true)
             && !MatchesAny(p, f.prefixes, advertised, id.value, true, true)
          then Some(GroupFilter) else None
        case DenyMode =>
          if MatchesAny(p, f.tools, advertised, id.value, false, false)
             || MatchesAny(p, f.prefixes, advertised, id.value, true, false)
          then Some(GroupFilter) else None
        case NoMode => None
  }

  /** A rule sees the identity, not the spelling: two policies that differ in the mode alone match alike. */
  lemma MatchesAlike(p: Policy, q: Policy, entries: seq<string>, s: string, t: string, id: ToolIdentity, prefix: bool, allowSide: bool)
    requires p.mode != Literal && q.mode != Literal && p.groupTarget == q.groupTarget
    ensures MatchesAny(p, entries, s, id, prefix, allowSide) == MatchesAny(q, entries, t, id, prefix, allowSide)
  {
    assert forall e :: Matches(p, e, s, id, prefix) == Matches(q, e, t, id, prefix);
  }

  /**
   * One rule, one meaning: the aggregate endpoint gives a tool's canonical name the reason that the member endpoint of
   * the same group gives the tool's own name.
   */
  lemma JudgedAlike(group: Option<Stored>, key: Option<Key>, id: ToolIdentity, anySlug: string)
    requires ValidSlug(id.slug) && id.name != ""
    ensures BlockedBy(NewPolicy(group, key, Parse, anySlug), Canonical(id)) == BlockedBy(NewPolicy(group, key, Compose, id.slug), id.name)
  {
    CanonicalRoundTrip(id);
    var p, q := NewPolicy(group, key, Parse, anySlug), NewPolicy(group, key, Compose, id.slug);
    var f := p.filter;
    forall entries, prefix, allowSide
      ensures MatchesAny(p, entries, Canonical(id), id, prefix, allowSide) == MatchesAny(q, entries, id.name, id, prefix, allowSide)
    {
      MatchesAlike(p, q, entries, Canonical(id), id.name, id, prefix, allowSide);
    }
    hide MatchesAny, Canonical, ParseCanonical;
  }

  // ---- What a policy means, with no modes and no order of rules ----

  /** Some entry of `entries` names the tool; on a group an allow rule reads only its scoped entries. */
  predicate Names(entries: seq<string>, id: ToolIdentity, prefix: bool, scopedOnly: bool) {
    exists e :: e in entries && (!scopedOnly || SplitEntry(e).Scoped?) && MatchToolEntry(e, id, prefix)
  }

  predicate FilterPermits(f: Filter, id: ToolIdentity) {
    var named := Names(f.tools, id, false, f.mode.AllowMode?) || Names(f.prefixes, id, true, f.mode.AllowMode?);
    match f.mode
    case NoMode => true
    case AllowMode => named || (f.tools == [] && f.prefixes == [])
    case DenyMode => !named
  }

  predicate KeyPermits(key: Key, id: ToolIdentity, onGroup: bool) {
    !key.malformed && !Names(key.deny, id, false, false) && (key.allow == [] || Names(key.allow, id, false, onGroup))
  }

  /** Everything readable, nothing denied, and every allow list that has entries names the tool. */
  predicate Allowed(group: Option<Stored>, key: Option<Key>, id: ToolIdentity) {
    && (group.Some? ==> !group.value.Invalid? && (group.value.Valid? ==> FilterPermits(group.value.filter, id)))
    && (key.Some? ==> KeyPermits(key.value, id, group.Some?))
  }

  lemma MatchesAnyIsNames(p: Policy, entries: seq<string>, advertised: string, id: ToolIdentity, prefix: bool, allowSide: bool)
    requires p.mode != Literal
    ensures MatchesAny(p, entries, advertised, id, prefix, allowSide) == Names(entries, id, prefix, allowSide && p.groupTarget)
  {
    assert forall e :: Matches(p, e, advertised, id, prefix) == MatchToolEntry(e, id, prefix);
    hide MatchToolEntry, SplitEntry;
  }

  /** A tool is permitted, on the member endpoint and on the aggregate alike, exactly when every rule allows its identity. */
  lemma PermittedMeansAllowed(group: Option<Stored>, key: Option<Key>, id: ToolIdentity, anySlug: string)
    requires ValidSlug(id.slug) && id.name != ""
    ensures BlockedBy(NewPolicy(group, key, Compose, id.slug), id.name) == None <==> Allowed(group, key, id)
    ensures group.Some? ==>
              (BlockedBy(NewPolicy(group, key, Parse, anySlug), Canonical(id)) == None <==> Allowed(group, key, id))
  {
    var p := NewPolicy(group, key, Compose, id.slug);
    forall entries, prefix, allowSide
      ensures MatchesAny(p, entries, id.name, id, prefix, allowSide) == Names(entries, id, prefix, allowSide && p.groupTarget)
    {
      MatchesAnyIsNames(p, entries, id.name, id, prefix, allowSide);
    }
    assert Names([], id, false, false) == false;
    JudgedAlike(group, key, id, anySlug);
    hide MatchesAny, Names, ParseCanonical, Canonical;
  }

  /** Why a tool is refused: an unreadable filter, then unreadable lists, then the key's deny and allow lists, then the group's filter. */
  lemma ReasonsInOrder(group: Option<Stored>, key: Option<Key>, id: ToolIdentity)
    ensures var k := if key.Some? then key.value else Key([], [], false);
            BlockedBy(NewPolicy(group, key, Compose, id.slug), id.name) ==
              if group == Some(Invalid) then Some(InvalidFilter)
              else if k.malformed then Some(InvalidKeyLists)
              else if Names(k.deny, id, false, false) then Some(KeyDenylist)
              else if k.allow != [] && !Names(k.allow, id, false, group.Some?) then Some(KeyAllowlist)
              else if group.Some? && group.value.Valid? && !FilterPermits(group.value.filter, id) then Some(GroupFilter)
              else None
  {
    var p := NewPolicy(group, key, Compose, id.slug);
    forall entries, prefix, allowSide
      ensures MatchesAny(p, entries, id.name, id, prefix, allowSide) == Names(entries, id, prefix, allowSide && p.groupTarget)
    {
      MatchesAnyIsNames(p, entries, id.name, id, prefix, allowSide);
    }
    assert Names([], id, false, false) == false;
    hide MatchesAny, Names;
  }

  /** On the aggregate a name that is nobody's is refused as soon as there is any rule. */
  lemma NobodysToolIsRefused(group: Stored, key: Option<Key>, anySlug: string, advertised: string)
    requires ParseCanonical(advertised) == None && group.Valid? && group.filter.mode != NoMode && (key.Some? ==> !key.value.malformed)
    ensures BlockedBy(NewPolicy(Some(group), key, Parse, anySlug), advertised) == Some(UnknownIdentity)
  {
  }

  /** Where there is no member at all, a key's entries are the names themselves. */
  lemma LiteralEntriesAreNames(key: Key, slug: string, advertised: string)
    requires advertised != ""
    ensures BlockedBy(NewPolicy(None, Some(key), Literal, slug), advertised) == None <==>
            !key.malformed && advertised !in key.deny && (key.allow == [] || advertised in key.allow)
  {
    var p := NewPolicy(None, Some(key), Literal, slug);
    forall entries
      ensures MatchesAny(p, entries, advertised, ToolIdentity("", ""), false, false) <==> advertised in entries
      ensures MatchesAny(p, entries, advertised, ToolIdentity("", ""), false, true) <==> advertised in entries
    {
      if advertised in entries { assert Matches(p, advertised, advertised, ToolIdentity("", ""), false); }
    }
    hide MatchesAny;
  }

  /** A key narrows what its group permits and never widens it. */
  lemma KeyNeverWidens(group: Option<Stored>, key: Key, mode: Mode, slug: string, advertised: string)
    requires BlockedBy(NewPolicy(group, None, mode, slug), advertised).Some?
    ensures BlockedBy(NewPolicy(group, Some(key), mode, slug), advertised).Some?
  {
    var p, q := NewPolicy(group, None, mode, slug), NewPolicy(group, Some(key), mode, slug);
    forall entries, id, prefix, allowSide
      ensures MatchesAny(p, entries, advertised, id, prefix, allowSide) == MatchesAny(q, entries, advertised, id, prefix, allowSide)
    {
      assert forall e :: Matches(p, e, advertised, id, prefix) == Matches(q, e, advertised, id, prefix);
    }
    hide MatchesAny, ParseCanonical;
  }

  /** A key's deny entry on a tool means the same on every endpoint it can reach the tool through, group or not. */
  lemma DenyEntryReachesEveryEndpoint(group: Option<Stored>, key: Key, id: ToolIdentity, anySlug: string, e: string)
    requires ValidSlug(id.slug) && id.name != "" && e in key.deny && MatchToolEntry(e, id, false)
    ensures BlockedBy(NewPolicy(group, Some(key), Parse, anySlug), Canonical(id)).Some?
    ensures BlockedBy(NewPolicy(group, Some(key), Compose, id.slug), id.name).Some?
    ensures BlockedBy(NewPolicy(None, Some(key), Compose, id.slug), id.name).Some?
  {
    DenyBlocks(NewPolicy(group, Some(key), Compose, id.slug), id.name, e);
    DenyBlocks(NewPolicy(None, Some(key), Compose, id.slug), id.name, e);
    hide BlockedBy;
    JudgedAlike(group, Some(key), id, anySlug);
  }

  lemma DenyBlocks(p: Policy, advertised: string, e: string)
    requires p.mode == Compose && e in p.deny && MatchToolEntry(e, ToolIdentity(p.slug, advertised), false)
    ensures BlockedBy(p, advertised).Some?
  {
    assert Matches(p, e, advertised, ToolIdentity(p.slug, advertised), false);
  }

  /** An allowlist all of whose entries are unscoped refuses every tool of a group. */
  lemma UnscopedAllowAdmitsNothing(group: Stored, key: Key, id: ToolIdentity, anySlug: string)
    requires ValidSlug(id.slug) && id.name != ""
    requires key.allow != [] && forall e :: e in key.allow ==> SplitEntry(e).Unscoped?
    ensures BlockedBy(NewPolicy(Some(group), Some(key), Parse, anySlug), Canonical(id)).Some?
    ensures BlockedBy(NewPolicy(Some(group), Some(key), Compose, id.slug), id.name).Some?
  {
    JudgedAlike(Some(group), Some(key), id, anySlug);
  }

  /** What a policy refuses it hides, in order. */
  function Permitted(tools: seq<string>, p: Policy): seq<string> {
    if tools == [] then []
    else Permitted(tools[..|tools| - 1], p) + if BlockedBy(p, tools[|tools| - 1]) == None then [tools[|tools| - 1]] else []
  }

  method FilterTools(tools: seq<string>, p: Policy) returns (out: seq<string>)
    ensures out == Permitted(tools, p)
    ensures forall t :: t in out <==> t in tools && BlockedBy(p, t) == None
  {
    hide BlockedBy;
    out := [];
    for k := 0 to |tools|
      invariant out == Permitted(tools[..k], p)
      invariant forall t :: t in out <==> t in tools[..k] && BlockedBy(p, t) == None
    {
      assert tools[..k + 1][..k] == tools[..k];
      if BlockedBy(p, tools[k]) == None {
        out := out + [tools[k]];
      }
    }
    assert tools[..|tools|] == tools;
  }

  // ---- The merged catalogue ----

  datatype Route = Route(member: nat, original: string)

  /** A name the gate can hold a caller to. */
  predicate UsableToolName(name: string) {
    name != "" && forall c :: c in name ==> c != '\U{FFFD}' && c as int >= 0x20 && c as int != 0x7F
  }

  function Usable(tools: seq<string>, member: nat): seq<Route> {
    if tools == [] then []
    else
      var n := |tools| - 1;
      Usable(tools[..n], member) + if UsableToolName(tools[n]) then [Route(member, tools[n])] else []
  }

  /** The usable tools of the first `n` members, member by member, each in the order it was listed. */
  function Catalogue(lists: seq<seq<string>>, n: nat): (c: seq<Route>)
    requires n <= |lists|
    ensures forall r :: r in c ==> r.member < n
  {
    if n == 0 then [] else Catalogue(lists, n - 1) + UsableOf(lists[n - 1], n - 1)
  }

  function UsableOf(tools: seq<string>, member: nat): (c: seq<Route>)
    ensures forall r :: r in c ==> r.member == member && UsableToolName(r.original)
  {
    UsableNames(tools, member);
    Usable(tools, member)
  }

  lemma {:induction false} UsableNames(tools: seq<string>, member: nat)
    ensures forall r :: r in Usable(tools, member) <==> r.member == member && r.original in tools && UsableToolName(r.original)
  {
    if tools != [] {
      var n := |tools| - 1;
      UsableNames(tools[..n], member);
      assert tools == tools[..n] + [tools[n]];
    }
  }

  function NameOf(slugs: seq<string>, r: Route): string {
    Canonical(ToolIdentity(if r.member < |slugs| then slugs[r.member] else "", r.original))
  }

  function NamesOf(slugs: seq<string>, c: seq<Route>): seq<string> {
    seq(|c|, i requires 0 <= i < |c| => NameOf(slugs, c[i]))
  }

  /** The routing table: a later entry for a name replaces an earlier one. */
  function Table(slugs: seq<string>, c: seq<Route>): map<string, Route> {
    if c == [] then map[] else Table(slugs, c[..|c| - 1])[NameOf(slugs, c[|c| - 1]) := c[|c| - 1]]
  }

  lemma AddTool(slugs: seq<string>, c: seq<Route>, r: Route)
    ensures NamesOf(slugs, c + [r]) == NamesOf(slugs, c) + [NameOf(slugs, r)]
    ensures Table(slugs, c + [r]) == Table(slugs, c)[NameOf(slugs, r) := r]
  {
    assert (c + [r])[..|c|] == c;
  }

  lemma NoTools(slugs: seq<string>)
    ensures NamesOf(slugs, []) == [] && Table(slugs, []) == map[]
  {
  }

  lemma NoneUsable(tools: seq<string>, member: nat)
    ensures Usable(tools[..0], member) == []
  {
  }

  lemma UsableStep(tools: seq<string>, k: nat, member: nat, before: seq<Route>)
    requires k < |tools|
    ensures before + Usable(tools[..k + 1], member) ==
            if UsableToolName(tools[k]) then before + Usable(tools[..k], member) + [Route(member, tools[k])]
            else before + Usable(tools[..k], member)
  {
    assert tools[..k + 1][..k] == tools[..k];
    hide UsableToolName;
  }

  method BuildRoutes(slugs: seq<string>, lists: seq<seq<string>>) returns (merged: seq<string>, routes: map<string, Route>)
    requires |slugs| == |lists|
    ensures merged == NamesOf(slugs, Catalogue(lists, |lists|))
    ensures routes == Table(slugs, Catalogue(lists, |lists|))
  {
    hide Canonical, UsableToolName, NamesOf, Table, Usable;
    merged, routes := [], map[];
    assert merged == NamesOf(slugs, []) && routes == Table(slugs, []) by { NoTools(slugs); }
    for i := 0 to |lists|
      invariant merged == NamesOf(slugs, Catalogue(lists, i))
      invariant routes == Table(slugs, Catalogue(lists, i))
    {
      var tools := lists[i];
      ghost var before := Catalogue(lists, i);
      assert before + Usable(tools[..0], i) == before by { NoneUsable(tools, i); }
      for k := 0 to |tools|
        invariant merged == NamesOf(slugs, before + Usable(tools[..k], i))
        invariant routes == Table(slugs, before + Usable(tools[..k], i))
      {
        UsableStep(tools, k, i, before);
        if UsableToolName(tools[k]) {
          var name := Canonical(ToolIdentity(slugs[i], tools[k]));
          AddTool(slugs, before + Usable(tools[..k], i), Route(i, tools[k]));
          merged := merged + [name];
          routes := routes[name := Route(i, tools[k])];
        }
      }
      assert tools[..|tools|] == tools;
    }
  }

  predicate DistinctValid(slugs: seq<string>) {
    && (forall i :: 0 <= i < |slugs| ==> ValidSlug(slugs[i]))
    && forall i, j :: 0 <= i < j < |slugs| ==> slugs[i] != slugs[j]
  }

  /** Two entries for one name are the same tool of the same member. */
  lemma OneNameOneTool(slugs: seq<string>, a: Route, b: Route)
    requires DistinctValid(slugs) && a.member < |slugs| && b.member < |slugs| && NameOf(slugs, a) == NameOf(slugs, b)
    ensures a == b
  {
    CanonicalIsInjective(ToolIdentity(slugs[a.member], a.original), ToolIdentity(slugs[b.member], b.original));
  }

  lemma {:induction false} TableHolds(slugs: seq<string>, c: seq<Route>)
    requires DistinctValid(slugs) && forall r :: r in c ==> r.member < |slugs|
    ensures forall r :: r in c ==> NameOf(slugs, r) in Table(slugs, c) && Table(slugs, c)[NameOf(slugs, r)] == r
    ensures forall s :: s in Table(slugs, c) ==> Table(slugs, c)[s] in c && s == NameOf(slugs, Table(slugs, c)[s])
  {
    if c != [] {
      var last, rest := c[|c| - 1], c[..|c| - 1];
      assert c == rest + [last];
      TableHolds(slugs, rest);
      hide NameOf, DistinctValid;
      forall r | r in c ensures NameOf(slugs, r) in Table(slugs, c) && Table(slugs, c)[NameOf(slugs, r)] == r {
        if NameOf(slugs, r) == NameOf(slugs, last) { OneNameOneTool(slugs, r, last); }
      }
    }
  }

  /**
   * Judged is executed: with valid, pairwise distinct slugs, a name that has a route is routed to a usable tool that its
   * member lists, under the member and own name its parse says, and the gate gives the name the reason it gives that
   * tool on that member's endpoint of the same group.
   */
  lemma JudgedIsExecuted(slugs: seq<string>, lists: seq<seq<string>>, group: Option<Stored>, key: Option<Key>, advertised: string, anySlug: string)
    requires |slugs| == |lists| && DistinctValid(slugs)
    ensures var routes := Table(slugs, Catalogue(lists, |lists|));
            advertised in routes ==>
              var r := routes[advertised];
              && r.member < |slugs| && r.original in lists[r.member] && UsableToolName(r.original)
              && ParseCanonical(advertised) == Some(ToolIdentity(slugs[r.member], r.original))
              && BlockedBy(NewPolicy(group, key, Parse, anySlug), advertised)
                 == BlockedBy(NewPolicy(group, key, Compose, slugs[r.member]), r.original)
  {
    var c := Catalogue(lists, |lists|);
    TableHolds(slugs, c);
    var routes := Table(slugs, c);
    if advertised in routes {
      var r := routes[advertised];
      InCatalogue(lists, |lists|, r);
      hide Table, Catalogue, BlockedBy, Canonical;
      var id := ToolIdentity(slugs[r.member], r.original);
      CanonicalRoundTrip(id);
      JudgedAlike(group, key, id, anySlug);
    }
  }

  lemma {:induction false} InCatalogue(lists: seq<seq<string>>, n: nat, r: Route)
    requires n <= |lists|
    ensures r in Catalogue(lists, n) <==> r.member < n && r.original in lists[r.member] && UsableToolName(r.original)
  {
    hide UsableToolName, Usable;
    if n > 0 {
      InCatalogue(lists, n - 1, r);
      var own := UsableOf(lists[n - 1], n - 1);
      UsableNames(lists[n - 1], n - 1);
      assert Catalogue(lists, n) == Catalogue(lists, n - 1) + own;
      hide Catalogue;
      assert r in own <==> r.member == n - 1 && r.original in lists[n - 1] && UsableToolName(r.original);
    }
  }

  /** And every usable tool of every member is advertised under its own name and routed back to itself. */
  lemma EveryUsableToolIsRouted(slugs: seq<string>, lists: seq<seq<string>>, r: Route)
    requires |slugs| == |lists| && DistinctValid(slugs)
    requires r.member < |lists| && r.original in lists[r.member] && UsableToolName(r.original)
    ensures var routes := Table(slugs, Catalogue(lists, |lists|));
            NameOf(slugs, r) in routes && routes[NameOf(slugs, r)] == r
  {
    InCatalogue(lists, |lists|, r);
    TableHolds(slugs, Catalogue(lists, |lists|));
  }

  /** A non-empty name with no control character and no replacement character. */
  predicate Readable(name: string) {
    name != "" && forall i :: 0 <= i < |name| ==> name[i] as int >= 32 && name[i] as int != 127 && name[i] as int != 0xFFFD
  }

  /** The names with a route are exactly the members' readable tools, each under its member's slug and two underscores. */
  lemma RoutedExactly(slugs: seq<string>, lists: seq<seq<string>>, name: string)
    requires |slugs| == |lists| && DistinctValid(slugs)
    ensures name in Table(slugs, Catalogue(lists, |lists|)) <==>
            exists m, t :: 0 <= m < |lists| && t in lists[m] && Readable(t) && name == slugs[m] + "__" + t
  {
    var c := Catalogue(lists, |lists|);
    TableHolds(slugs, c);
    hide Table, Catalogue;
    forall t ensures UsableToolName(t) <==> Readable(t) { ReadableIsUsable(t); }
    hide UsableToolName, Readable;
    var routes := Table(slugs, c);
    if name in routes {
      InCatalogue(lists, |lists|, routes[name]);
    }
    forall m, t | 0 <= m < |lists| && t in lists[m] && Readable(t) && name == slugs[m] + "__" + t ensures name in routes {
      InCatalogue(lists, |lists|, Route(m, t));
      assert NameOf(slugs, Route(m, t)) in routes;
    }
  }

  lemma ReadableIsUsable(t: string)
    ensures UsableToolName(t) <==> Readable(t)
  {
    assert forall i :: 0 <= i < |t| ==> t[i] in t;
    if !UsableToolName(t) && t != "" {
      var c :| c in t && !(c != '\U{FFFD}' && c as int >= 0x20 && c as int != 0x7F);
      var i :| 0 <= i < |t| && t[i] == c;
    }
    if UsableToolName(t) {
      forall i | 0 <= i < |t| ensures t[i] as int != 0xFFFD { OnlyOneReplacement(t[i]); }
    }
  }

  lemma OnlyOneReplacement(c: char)
    ensures c as int == 0xFFFD <==> c == '\U{FFFD}'
  {
  }
}
