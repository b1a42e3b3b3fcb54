// What the mapping file may hold and which texts of a JSON value are rewritten, told from the texts alone.
module UuidText {
  import opened Wrappers
  import opened UuidRewrite

  // ---- rows of the mapping file ----

  /** Groups of 8, 4, 4, 4 and 12 lower-case hexadecimal digits: version 4, and the variant of RFC 4122. */
  ghost predicate InGroups(s: string, a: string, b: string, c: string, d: string, e: string) {
    && |a| == 8 && |b| == 4 && |c| == 3 && |d| == 4 && |e| == 12 && (forall x | x in a + b + c + d + e :: LowerHex(x))
    && d[0] in {'8', '9', 'a', 'b'} && s == a + "-" + b + "-4" + c + "-" + d + "-" + e
  }

  lemma {:induction false} TargetsAreInGroups(s: string)
    ensures CanonicalV4(s) <==> exists a, b, c, d, e :: InGroups(s, a, b, c, d, e)
  {
    if CanonicalV4(s) {
      GroupsOf(s);
    }
    if a, b, c, d, e :| InGroups(s, a, b, c, d, e) {
      GroupsMake(s, a, b, c, d, e);
    }
  }

  lemma {:induction false} GroupsOf(s: string)
    requires CanonicalV4(s)
    ensures InGroups(s, s[..8], s[9..13], s[15..18], s[19..23], s[24..])
  {
    var joined := s[..8] + "-" + s[9..13] + "-4" + s[15..18] + "-" + s[19..23] + "-" + s[24..];
    assert forall i | 0 <= i < 36 :: s[i] == joined[i];
    assert s == joined;
    forall x | x in s[..8] + s[9..13] + s[15..18] + s[19..23] + s[24..] ensures LowerHex(x) {
      assert x in s[..8] || x in s[9..13] || x in s[15..18] || x in s[19..23] || x in s[24..];
    }
  }

  lemma {:induction false} GroupsMake(s: string, a: string, b: string, c: string, d: string, e: string)
    requires InGroups(s, a, b, c, d, e)
    ensures CanonicalV4(s)
  {
    assert |s| == 36 && s[14] == '4' && s[19] == d[0];
    forall i | 0 <= i < 36 ensures if i in {8, 13, 18, 23} then s[i] == '-' else LowerHex(s[i]) {
      var x := s[i];
      assert i < 8 ==> x in a;
      assert 9 <= i < 13 ==> x == b[i - 9] && x in b;
      assert 15 <= i < 18 ==> x == c[i - 15] && x in c;
      assert 19 <= i < 23 ==> x == d[i - 19] && x in d;
      assert 24 <= i ==> x == e[i - 24] && x in e;
    }
  }

  /** A source is one word that no list, path or membership could cut. */
  predicate OneWord(s: string) {
    s != "" && forall i | 0 <= i < |s| :: !White(s[i]) && s[i] != ':' && s[i] != ',' && s[i] != '/'
  }

  /** Three fields: a word, another identity that is a version-4 UUID in canonical form, and a kind. */
  lemma {:induction false} RowIsAcceptedIff(row: seq<string>)
    ensures ParseRow(row).Ok? <==>
      |row| == 3 && OneWord(row[0]) && (exists a, b, c, d, e :: InGroups(row[1], a, b, c, d, e))
      && row[0] != row[1] && row[2] in {"carbon", "silicon"}
    ensures ParseRow(row).Ok? ==>
      ParseRow(row).value == Entry(row[0], row[1], if row[2] == "carbon" then Carbon else Silicon)
  {
    if |row| == 3 {
      TargetsAreInGroups(row[1]);
      assert forall i | 0 <= i < |row[0]| :: row[0][i] in row[0];
    }
  }

  // ---- texts in an object ----

  predicate NamesKind(v: Json) { v == Str("carbon") || v == Str("silicon") }

  predicate IsFirst(fields: seq<Field>, j: nat, key: string) {
    j < |fields| && fields[j].key == key && forall k | 0 <= k < j :: fields[k].key != key
  }

  /** The object says so in `type`, or in `kind` if it has no `type`. */
  ghost predicate SaysAccount(fields: seq<Field>) {
    || (exists j: nat :: IsFirst(fields, j, "type") && NamesKind(fields[j].value))
    || ((forall f | f in fields :: f.key != "type")
        && exists j: nat :: IsFirst(fields, j, "kind") && NamesKind(fields[j].value))
  }

  lemma {:induction false} LookupFindsFirst(fields: seq<Field>, key: string)
    ensures match Lookup(fields, key)
      case None => forall f | f in fields :: f.key != key
      case Some(v) => exists j: nat :: IsFirst(fields, j, key) && fields[j].value == v
    decreases |fields|
  {
    if fields != [] && fields[0].key != key {
      LookupFindsFirst(fields[1..], key);
      if Lookup(fields, key).Some? {
        var j: nat :| IsFirst(fields[1..], j, key) && fields[1..][j].value == Lookup(fields, key).value;
        assert IsFirst(fields, j + 1, key);
      }
    } else if fields != [] {
      assert IsFirst(fields, 0, key);
    }
  }

  lemma {:induction false} TypedIff(fields: seq<Field>)
    ensures Typed(fields) <==> SaysAccount(fields)
  {
    LookupFindsFirst(fields, "type");
    LookupFindsFirst(fields, "kind");
    assert forall j: nat, k: nat, key | IsFirst(fields, j, key) && IsFirst(fields, k, key) :: j == k;
  }

  /** The first colon, told from the text. */
  lemma {:induction false} ColonIsFirst(app: string, rest: string)
    requires ':' !in app
    ensures AfterColon(app + ":" + rest) == Some(|app| + 1) && AfterColon(app) == None
  {
    var s := app + ":" + rest;
    if app != "" {
      ColonIsFirst(app[1..], rest);
      assert s[1..] == app[1..] + ":" + rest && s[0] == app[0] && app[0] in app;
    }
  }

  function TextOf(keys: set<string>, sub: Id -> Id, fields: seq<Field>, i: nat): (value: Json)
    requires i < |fields|
    ensures value == RewriteField(keys, sub, Typed(fields), fields[i]).value
  {
    assert Rewrite(keys, sub, Obj(fields)).fields[i] == RewriteField(keys, sub, Typed(fields), fields[i]);
    Rewrite(keys, sub, Obj(fields)).fields[i].value
  }

  /** Which texts of an object are rewritten, and to what. */
  lemma {:induction false} TextsFollow(keys: set<string>, sub: Id -> Id, fields: seq<Field>, i: nat, text: string)
    requires i < |fields| && fields[i].value == Str(text)
    ensures var value := TextOf(keys, sub, fields, i);
      && (fields[i].key in keys ==> value == Str(sub(text)))
      && (fields[i].key == "id" && SaysAccount(fields) ==> value == Str(sub(text)))
      && (fields[i].key !in keys && fields[i].key == "id" && !SaysAccount(fields) ==> value == Str(text))
      && (fields[i].key !in keys && fields[i].key !in {"id", "membership_id"} ==> value == Str(text))
      && (fields[i].key !in keys && fields[i].key == "membership_id" && ':' !in text ==> value == Str(text))
  {
    TypedIff(fields);
    if ':' !in text { ColonIsFirst(text, ""); }
    assert text[0..] == text && text[..0] == "" && Rewrite(keys, sub, Str(text)) == Str(text);
  }

  /** Of a membership, what is behind the first colon. */
  lemma {:induction false} MembershipsFollow(keys: set<string>, sub: Id -> Id, fields: seq<Field>, i: nat, app: string,
                                             id: Id)
    requires i < |fields| && fields[i] == Field("membership_id", Str(app + ":" + id)) && ':' !in app
    requires "membership_id" !in keys
    ensures TextOf(keys, sub, fields, i) == Str(app + ":" + sub(id))
  {
    var text := app + ":" + id;
    ColonIsFirst(app, id);
    assert text[..|app| + 1] == app + ":" && text[|app| + 1..] == id;
  }
}
