// Account identity mappings and the rewriting of identities inside stored JSON (scripts/accounts_uuid128.py).
module UuidRewrite {
  import opened Wrappers

  type Id = string

  datatype Kind = Carbon | Silicon

  // ---- reading a mapping file ----

  datatype Fault = FieldCount | InvalidSource | InvalidTarget | InvalidKind | Duplicate | Header | EmptyOrChained

  datatype Mapping = Mapping(targets: map<Id, Id>, kinds: map<Id, Kind>)

  predicate White(c: char) {
    || '\U{9}' <= c <= '\U{d}' || '\U{1c}' <= c <= ' ' || c == '\U{85}' || c == '\U{a0}' || c == '\U{1680}'
    || '\U{2000}' <= c <= '\U{200a}' || c == '\U{2028}' || c == '\U{2029}' || c == '\U{202f}' || c == '\U{205f}'
    || c == '\U{3000}'
  }

  predicate SourceId(s: string) {
    s != "" && forall c | c in s :: !White(c) && c != ':' && c != ',' && c != '/'
  }

  predicate LowerHex(c: char) { '0' <= c <= '9' || 'a' <= c <= 'f' }

  /** Canonical lower-case text of a UUID of the RFC 9562 variant. */
  predicate CanonicalUuid(s: string) {
    && |s| == 36 && s[19] in {'8', '9', 'a', 'b'}
    && forall i | 0 <= i < 36 :: if i in {8, 13, 18, 23} then s[i] == '-' else LowerHex(s[i])
  }

  /** Version 4 (section 5.4 of RFC 9562). */
  predicate CanonicalV4(s: string) { CanonicalUuid(s) && s[14] == '4' }

  function KindOf(s: string): Option<Kind> {
    if s == "carbon" then Some(Carbon) else if s == "silicon" then Some(Silicon) else None
  }

  datatype Entry = Entry(source: Id, target: Id, kind: Kind)

  /** What a row needs on its own. */
  function ParseRow(row: seq<string>): Result<Entry, Fault> {
    if |row| != 3 then Err(FieldCount)
    else if !SourceId(row[0]) then Err(InvalidSource)
    else if !CanonicalV4(row[1]) then Err(InvalidTarget)
    else if KindOf(row[2]).None? || row[0] == row[1] then Err(InvalidKind)
    else Ok(Entry(row[0], row[1], KindOf(row[2]).value))
  }

  type RowParser = seq<string> -> Result<Entry, Fault>

  predicate AllParse(parse: RowParser, rows: seq<seq<string>>) { forall i | 0 <= i < |rows| :: parse(rows[i]).Ok? }

  function Entries(parse: RowParser, rows: seq<seq<string>>): (es: seq<Entry>)
    requires AllParse(parse, rows)
    ensures |es| == |rows| && forall i | 0 <= i < |es| :: es[i] == parse(rows[i]).value
  {
    seq(|rows|, i requires 0 <= i < |rows| => parse(rows[i]).value)
  }

  predicate NoRepeats(es: seq<Entry>) {
    forall i, j | 0 <= i < j < |es| :: es[i].source != es[j].source && es[i].target != es[j].target
  }

  predicate NoChains(es: seq<Entry>) { forall a, b | a in es && b in es :: a.source != b.target }

  /** Rows that make one injective mapping no target of which is a source. */
  predicate Acceptable(parse: RowParser, rows: seq<seq<string>>) {
    rows != [] && AllParse(parse, rows) && NoRepeats(Entries(parse, rows)) && NoChains(Entries(parse, rows))
  }

  ghost predicate Holds(m: Mapping, es: seq<Entry>) {
    && (forall id :: id in m.targets <==> exists e :: e in es && e.source == id)
    && m.kinds.Keys == m.targets.Keys
    && forall e | e in es :: e.source in m.targets && m.targets[e.source] == e.target && m.kinds[e.source] == e.kind
  }

  /** Injective, and no target is a source. */
  predicate ChainFree(m: map<Id, Id>) {
    && (forall a, b | a in m && b in m && m[a] == m[b] :: a == b)
    && (forall a | a in m :: m[a] !in m)
  }

  /** Accepts exactly the acceptable files, and returns the mapping they list. */
  method ReadMapping(header: seq<string>, rows: seq<seq<string>>) returns (r: Result<Mapping, Fault>)
    ensures r.Ok? <==> header == ["old_uuid", "new_uuid", "kind"] && Acceptable(ParseRow, rows)
    ensures r.Ok? ==> Holds(r.value, Entries(ParseRow, rows)) && ChainFree(r.value.targets)
  {
    if header != ["old_uuid", "new_uuid", "kind"] {
      return Err(Header);
    }
    r := ReadRows(ParseRow, rows);
  }

  method ReadRows(parse: RowParser, rows: seq<seq<string>>) returns (r: Result<Mapping, Fault>)
    ensures r.Ok? <==> Acceptable(parse, rows)
    ensures r.Ok? ==> Holds(r.value, Entries(parse, rows)) && ChainFree(r.value.targets)
  {
    var m, targets := Mapping(map[], map[]), {};
    ghost var es: seq<Entry> := [];
    var n := 0;
    while n < |rows|
      invariant 0 <= n <= |rows| && AllParse(parse, rows[..n])
      invariant es == Entries(parse, rows[..n]) && Tracks(m, targets, es)
    {
      var row := parse(rows[n]);
      if row.Err? {
        return Err(row.error);
      }
      var e := row.value;
      if e.source in m.targets || e.target in targets {
        RepeatIsRefused(parse, rows, n, m, targets, es, e);
        return Err(Duplicate);
      }
      AddedTracks(m, targets, es, e);
      m, targets, es := Added(m, e), targets + {e.target}, es + [e];
      EntriesGrow(parse, rows, n);
      n := n + 1;
    }
    assert rows[..n] == rows;
    if m.targets == map[] || m.targets.Keys * targets != {} {
      ChainIsRefused(es, m, targets);
      return Err(EmptyOrChained);
    }
    NoChainsFound(es, m, targets);
    return Ok(m);
  }

  lemma EntriesGrow(parse: RowParser, rows: seq<seq<string>>, n: nat)
    requires n < |rows| && AllParse(parse, rows[..n]) && parse(rows[n]).Ok?
    ensures AllParse(parse, rows[..n + 1])
    ensures Entries(parse, rows[..n + 1]) == Entries(parse, rows[..n]) + [parse(rows[n]).value]
  {}

  function Added(m: Mapping, e: Entry): Mapping {
    Mapping(m.targets[e.source := e.target], m.kinds[e.source := e.kind])
  }

  /** The mapping read so far and the set of its targets. */
  ghost predicate Tracks(m: Mapping, targets: set<Id>, es: seq<Entry>) {
    NoRepeats(es) && Holds(m, es) && forall id :: id in targets <==> exists e :: e in es && e.target == id
  }

  lemma {:induction false} AddedTracks(m: Mapping, targets: set<Id>, es: seq<Entry>, e: Entry)
    requires Tracks(m, targets, es) && e.source !in m.targets && e.target !in targets
    ensures Tracks(Added(m, e), targets + {e.target}, es + [e])
  {}

  lemma RepeatIsRefused(parse: RowParser, rows: seq<seq<string>>, n: nat, m: Mapping, targets: set<Id>, es: seq<Entry>,
                        e: Entry)
    requires n < |rows| && AllParse(parse, rows[..n]) && es == Entries(parse, rows[..n]) && parse(rows[n]) == Ok(e)
    requires Tracks(m, targets, es) && (e.source in m.targets || e.target in targets)
    ensures !Acceptable(parse, rows)
  {}

  lemma ChainIsRefused(es: seq<Entry>, m: Mapping, targets: set<Id>)
    requires Tracks(m, targets, es)
    requires m.targets == map[] || m.targets.Keys * targets != {}
    ensures es == [] || !NoChains(es)
  {
    if es != [] {
      assert es[0] in es && es[0].source in m.targets;
      var x :| x in m.targets.Keys * targets;
      var a :| a in es && a.source == x;
      var b :| b in es && b.target == x;
    }
  }

  lemma NoChainsFound(es: seq<Entry>, m: Mapping, targets: set<Id>)
    requires Tracks(m, targets, es)
    requires m.targets != map[] && m.targets.Keys * targets == {}
    ensures es != [] && NoChains(es) && ChainFree(m.targets)
  {
    var id :| id in m.targets;
    forall a, b | a in es && b in es ensures a.source != b.target {
      assert a.source in m.targets.Keys && b.target in targets;
      assert a.source !in m.targets.Keys * targets;
    }
    AcceptedIsChainFree(es, m);
  }

  lemma {:induction false} AcceptedIsChainFree(es: seq<Entry>, m: Mapping)
    requires NoRepeats(es) && NoChains(es) && Holds(m, es)
    ensures ChainFree(m.targets)
  {}

  // ---- JSON ----

  /** Objects keep their fields in order; keys are distinct in stored values. */
  datatype Json =
    | Null | Bool(b: bool) | Number(literal: string) | Str(text: string)
    | Arr(items: seq<Json>) | Obj(fields: seq<Field>)
  datatype Field = Field(key: string, value: Json)

  const IDENTITY_KEYS: set<string> := {
    "uuid", "account_uuid", "custodian_uuid", "actor_account", "owner_account", "assigned_by_account",
    "assigned_to_account", "participant_account", "silicon_account", "allowed_account", "created_by_account",
    "updated_by_account", "added_by_account", "removed_by_account", "deleted_by_account", "owner_uuid", "viewer_uuid",
    "grantee_uuid", "subject_uuid", "actor_uuid", "silicon_uuid", "allowed_uuid", "granted_by_uuid",
    "revoked_by_uuid", "created_by_uuid", "added_by_uuid"}

  function Lookup(fields: seq<Field>, key: string): Option<Json> {
    if fields == [] then None else if fields[0].key == key then Some(fields[0].value) else Lookup(fields[1..], key)
  }

  /** The object says it describes an account: its own `id` is then an identity. */
  predicate Typed(fields: seq<Field>) {
    var t := if Lookup(fields, "type").Some? then Lookup(fields, "type") else Lookup(fields, "kind");
    t == Some(Str("carbon")) || t == Some(Str("silicon"))
  }

  /** The text after the first colon, if there is one. */
  function AfterColon(s: string): Option<nat> {
    if s == "" then None else if s[0] == ':' then Some(1) else
      var rest := AfterColon(s[1..]);
      if rest.None? then None else Some(rest.value + 1)
  }

  /** Where a field holds an identity: from which character on; `None` when it holds none. */
  function IdentityAt(keys: set<string>, typed: bool, f: Field): (at: Option<nat>)
    ensures at.Some? ==> f.value.Str? && at.value <= |f.value.text|
  {
    if !f.value.Str? then None
    else if f.key in keys || (typed && f.key == "id") then Some(0)
    else if f.key == "membership_id" then ColonWithin(f.value.text); AfterColon(f.value.text)
    else None
  }

  lemma {:induction false} ColonWithin(s: string)
    ensures AfterColon(s).Some? ==> 0 < AfterColon(s).value <= |s| && s[AfterColon(s).value - 1] == ':'
    ensures AfterColon(s).Some? ==> forall t :: AfterColon(s[..AfterColon(s).value] + t) == AfterColon(s)
  {
    if s != "" && s[0] != ':' && AfterColon(s).Some? {
      ColonWithin(s[1..]);
      var n := AfterColon(s).value;
      forall t ensures AfterColon(s[..n] + t) == AfterColon(s) {
        assert (s[..n] + t)[1..] == s[1..][..n - 1] + t;
      }
    }
  }

  function Substitute(m: map<Id, Id>): Id -> Id { id => if id in m then m[id] else id }

  /** Replaces the identity at every identity position; all else stays. */
  function Rewrite(keys: set<string>, sub: Id -> Id, v: Json): Json
    decreases v
  {
    match v
    case Arr(items) => Arr(seq(|items|, i requires 0 <= i < |items| => Rewrite(keys, sub, items[i])))
    case Obj(fields) =>
      var typed := Typed(fields);
      Obj(seq(|fields|, i requires 0 <= i < |fields| => RewriteField(keys, sub, typed, fields[i])))
    case _ => v
  }

  function RewriteField(keys: set<string>, sub: Id -> Id, typed: bool, f: Field): Field
    decreases f
  {
    var at := IdentityAt(keys, typed, f);
    Field(f.key,
      if at.Some? then Str(f.value.text[..at.value] + sub(f.value.text[at.value..])) else Rewrite(keys, sub, f.value))
  }

  /** What the migration does to a stored value. */
  function RewriteIdentityJson(m: map<Id, Id>, v: Json): Json { Rewrite(IDENTITY_KEYS, Substitute(m), v) }

  /** Some identity position of the value holds an identity of the given sort. */
  ghost predicate Mentions(keys: set<string>, sort: Id -> bool, v: Json)
    decreases v
  {
    match v
    case Arr(items) => exists i | 0 <= i < |items| :: Mentions(keys, sort, items[i])
    case Obj(fields) => exists i | 0 <= i < |fields| :: FieldMentions(keys, sort, Typed(fields), fields[i])
    case _ => false
  }

  ghost predicate FieldMentions(keys: set<string>, sort: Id -> bool, typed: bool, f: Field)
    decreases f
  {
    var at := IdentityAt(keys, typed, f);
    if at.Some? then sort(f.value.text[at.value..]) else Mentions(keys, sort, f.value)
  }

  /** Same arrays, same objects with the same keys, and the same leaves but for the text of strings. */
  ghost predicate SameShape(a: Json, b: Json) {
    match a
    case Arr(items) => b.Arr? && |items| == |b.items| && forall i | 0 <= i < |items| :: SameShape(items[i], b.items[i])
    case Obj(fields) => b.Obj? && |fields| == |b.fields| &&
      forall i | 0 <= i < |fields| :: fields[i].key == b.fields[i].key && SameShape(fields[i].value, b.fields[i].value)
    case Str(_) => b.Str?
    case _ => a == b
  }

  /** The keys that say what an object is are not themselves identity keys. */
  predicate KindKeysApart(keys: set<string>) { "type" !in keys && "kind" !in keys }

  lemma {:induction false} RewriteKeepsShape(keys: set<string>, sub: Id -> Id, v: Json)
    ensures SameShape(v, Rewrite(keys, sub, v))
  {
    match v
    case Arr(items) =>
      forall i | 0 <= i < |items| ensures SameShape(items[i], Rewrite(keys, sub, items[i])) {
        RewriteKeepsShape(keys, sub, items[i]);
      }
    case Obj(fields) =>
      forall i | 0 <= i < |fields|
        ensures SameShape(fields[i].value, RewriteField(keys, sub, Typed(fields), fields[i]).value)
      {
        RewriteKeepsShape(keys, sub, fields[i].value);
      }
    case _ =>
  }

  lemma {:induction false} LookupAlike(a: seq<Field>, b: seq<Field>, key: string, text: string)
    requires |a| == |b| && forall i | 0 <= i < |a| :: a[i].key == b[i].key
    requires forall i | 0 <= i < |a| && a[i].key == key :: a[i].value == Str(text) <==> b[i].value == Str(text)
    ensures Lookup(a, key).Some? <==> Lookup(b, key).Some?
    ensures Lookup(a, key) == Some(Str(text)) <==> Lookup(b, key) == Some(Str(text))
  {
    if a != [] && a[0].key != key { LookupAlike(a[1..], b[1..], key, text); }
  }

  lemma TypedStays(keys: set<string>, sub: Id -> Id, fields: seq<Field>)
    requires KindKeysApart(keys)
    ensures Typed(Rewrite(keys, sub, Obj(fields)).fields) == Typed(fields)
  {
    var b := Rewrite(keys, sub, Obj(fields)).fields;
    forall i | 0 <= i < |fields| ensures fields[i].key == b[i].key {
      assert b[i] == RewriteField(keys, sub, Typed(fields), fields[i]);
    }
    forall i, text | 0 <= i < |fields| && (fields[i].key == "type" || fields[i].key == "kind")
      ensures fields[i].value == Str(text) <==> b[i].value == Str(text)
    {
      KindFieldStays(keys, sub, Typed(fields), fields[i]);
      RewriteKeepsShape(keys, sub, fields[i].value);
    }
    forall text ensures Lookup(fields, "type") == Some(Str(text)) <==> Lookup(b, "type") == Some(Str(text)) {
      LookupAlike(fields, b, "type", text);
    }
    forall text ensures Lookup(fields, "kind") == Some(Str(text)) <==> Lookup(b, "kind") == Some(Str(text)) {
      LookupAlike(fields, b, "kind", text);
    }
    LookupAlike(fields, b, "type", "");
    LookupAlike(fields, b, "kind", "");
  }

  lemma KindFieldStays(keys: set<string>, sub: Id -> Id, typed: bool, f: Field)
    requires KindKeysApart(keys) && (f.key == "type" || f.key == "kind")
    ensures RewriteField(keys, sub, typed, f).value == Rewrite(keys, sub, f.value)
  {}

  /** A rewritten field holds its identity where it held one before. */
  lemma IdentityStays(keys: set<string>, sub: Id -> Id, typed: bool, f: Field)
    ensures IdentityAt(keys, typed, RewriteField(keys, sub, typed, f)) == IdentityAt(keys, typed, f)
  {
    RewriteKeepsShape(keys, sub, f.value);
    if f.value.Str? { ColonWithin(f.value.text); }
  }

  /** Rewriting twice is rewriting once by the composition. */
  lemma {:induction false} RewriteComposes(keys: set<string>, f: Id -> Id, g: Id -> Id, h: Id -> Id, v: Json)
    requires KindKeysApart(keys) && forall x :: h(x) == g(f(x))
    ensures Rewrite(keys, g, Rewrite(keys, f, v)) == Rewrite(keys, h, v)
  {
    match v
    case Arr(items) =>
      forall i | 0 <= i < |items| ensures Rewrite(keys, g, Rewrite(keys, f, items[i])) == Rewrite(keys, h, items[i]) {
        RewriteComposes(keys, f, g, h, items[i]);
      }
      assert Rewrite(keys, g, Rewrite(keys, f, v)).items == Rewrite(keys, h, v).items;
    case Obj(fields) =>
      var typed := Typed(fields);
      TypedStays(keys, f, fields);
      forall i | 0 <= i < |fields|
        ensures RewriteField(keys, g, typed, RewriteField(keys, f, typed, fields[i]))
          == RewriteField(keys, h, typed, fields[i])
      {
        RewriteComposes(keys, f, g, h, fields[i].value);
        FieldComposes(keys, f, g, h, typed, fields[i]);
      }
      assert Rewrite(keys, g, Rewrite(keys, f, v)).fields == Rewrite(keys, h, v).fields;
    case _ =>
  }

  lemma FieldComposes(keys: set<string>, f: Id -> Id, g: Id -> Id, h: Id -> Id, typed: bool, field: Field)
    requires Rewrite(keys, g, Rewrite(keys, f, field.value)) == Rewrite(keys, h, field.value)
      && forall x :: h(x) == g(f(x))
    ensures RewriteField(keys, g, typed, RewriteField(keys, f, typed, field)) == RewriteField(keys, h, typed, field)
  {
    IdentityStays(keys, f, typed, field);
    var at := IdentityAt(keys, typed, field);
    if at.Some? {
      var once := RewriteField(keys, f, typed, field).value.text;
      assert once[..at.value] == field.value.text[..at.value] && once[at.value..] == f(field.value.text[at.value..]);
    }
  }

  /** A value is left as it is exactly when every identity it mentions is. */
  lemma {:induction false} UnchangedIff(keys: set<string>, sub: Id -> Id, moved: Id -> bool, v: Json)
    requires forall x :: moved(x) <==> sub(x) != x
    ensures Rewrite(keys, sub, v) == v <==> !Mentions(keys, moved, v)
  {
    match v
    case Arr(items) =>
      forall i | 0 <= i < |items|
        ensures Rewrite(keys, sub, items[i]) == items[i] <==> !Mentions(keys, moved, items[i])
      {
        UnchangedIff(keys, sub, moved, items[i]);
      }
      var b := Rewrite(keys, sub, v).items;
      assert b == items <==> forall i | 0 <= i < |items| :: b[i] == items[i];
    case Obj(fields) =>
      var typed := Typed(fields);
      forall i | 0 <= i < |fields|
        ensures RewriteField(keys, sub, typed, fields[i]) == fields[i] <==>
          !FieldMentions(keys, moved, typed, fields[i])
      {
        UnchangedIff(keys, sub, moved, fields[i].value);
        FieldUnchangedIff(keys, sub, moved, typed, fields[i]);
      }
      var b := Rewrite(keys, sub, v).fields;
      assert b == fields <==> forall i | 0 <= i < |fields| :: b[i] == fields[i];
    case _ =>
  }

  lemma FieldUnchangedIff(keys: set<string>, sub: Id -> Id, moved: Id -> bool, typed: bool, f: Field)
    requires forall x :: moved(x) <==> sub(x) != x
    requires Rewrite(keys, sub, f.value) == f.value <==> !Mentions(keys, moved, f.value)
    ensures RewriteField(keys, sub, typed, f) == f <==> !FieldMentions(keys, moved, typed, f)
  {}

  // ---- what accepted mappings make of it ----

  lemma IdentityKeysApart()
    ensures KindKeysApart(IDENTITY_KEYS)
  {}

  /** Rewriting a second time changes nothing, whatever keys hold identities. */
  lemma RewriteTwice(keys: set<string>, m: map<Id, Id>, v: Json)
    requires KindKeysApart(keys) && ChainFree(m)
    ensures Rewrite(keys, Substitute(m), Rewrite(keys, Substitute(m), v)) == Rewrite(keys, Substitute(m), v)
  {
    RewriteComposes(keys, Substitute(m), Substitute(m), Substitute(m), v);
  }

  /** Rewriting a second time with the same mapping changes nothing. */
  lemma RewriteIsIdempotent(m: map<Id, Id>, v: Json)
    requires ChainFree(m)
    ensures RewriteIdentityJson(m, RewriteIdentityJson(m, v)) == RewriteIdentityJson(m, v)
  {
    IdentityKeysApart();
    RewriteTwice(IDENTITY_KEYS, m, v);
  }

  predicate IsInverse(m: map<Id, Id>, back: map<Id, Id>) {
    back.Keys == m.Values && forall a | a in m :: m[a] in back && back[m[a]] == a
  }

  /** Rewriting back restores the value exactly when it held no target identity to begin with. */
  lemma RewriteBackRestoresIff(m: map<Id, Id>, back: map<Id, Id>, v: Json)
    requires ChainFree(m) && IsInverse(m, back)
    ensures RewriteIdentityJson(back, RewriteIdentityJson(m, v)) == v <==> !Mentions(IDENTITY_KEYS, Targets(m), v)
  {
    IdentityKeysApart();
    BackRestoresIff(IDENTITY_KEYS, m, back, v);
  }

  function Targets(m: map<Id, Id>): Id -> bool { x => x in m.Values }

  lemma BackRestoresIff(keys: set<string>, m: map<Id, Id>, back: map<Id, Id>, v: Json)
    requires KindKeysApart(keys) && ChainFree(m) && IsInverse(m, back)
    ensures Rewrite(keys, Substitute(back), Rewrite(keys, Substitute(m), v)) == v <==> !Mentions(keys, Targets(m), v)
  {
    var round := x => Substitute(back)(Substitute(m)(x));
    RewriteComposes(keys, Substitute(m), Substitute(back), round, v);
    forall x ensures x in m.Values <==> round(x) != x {
      RoundMoves(m, back, x);
    }
    UnchangedIff(keys, round, Targets(m), v);
  }

  lemma RoundMoves(m: map<Id, Id>, back: map<Id, Id>, x: Id)
    requires ChainFree(m) && IsInverse(m, back)
    ensures x in m.Values <==> Substitute(back)(Substitute(m)(x)) != x
  {}

  function Sources(m: map<Id, Id>): Id -> bool { x => x in m }

  lemma NoSourceRemainsFor(keys: set<string>, m: map<Id, Id>, v: Json)
    requires KindKeysApart(keys) && ChainFree(m)
    ensures !Mentions(keys, Sources(m), Rewrite(keys, Substitute(m), v))
  {
    RewriteTwice(keys, m, v);
    forall x ensures x in m <==> Substitute(m)(x) != x {
      if x in m { assert m[x] !in m; }
    }
    UnchangedIff(keys, Substitute(m), Sources(m), Rewrite(keys, Substitute(m), v));
  }

  /** No source identity survives at an identity position. */
  lemma NoSourceRemains(m: map<Id, Id>, v: Json)
    requires ChainFree(m)
    ensures !Mentions(IDENTITY_KEYS, Sources(m), RewriteIdentityJson(m, v))
  {
    IdentityKeysApart();
    NoSourceRemainsFor(IDENTITY_KEYS, m, v);
  }
}
