/** When a policy entry compiles: the conditions of each isolation kind, in terms of the names in the policy file. */
module CompilerConditions {
  import opened Common
  import opened SqlModel
  import opened PolicyCompiler

  // ---- Names

  predicate IsLetter(c: char) {
    65 <= c as int <= 90 || 97 <= c as int <= 122 || c == '_'
  }

  /** A letter or underscore, then letters, underscores and digits. */
  predicate IsName(s: string) {
    s != "" && IsLetter(s[0]) && forall c | c in s :: IsLetter(c) || 48 <= c as int <= 57
  }

  lemma IdentifierIff(s: string)
    ensures IsIdentifier(s) <==> IsName(s)
  {
    assert forall c :: IsIdentStart(c) <==> IsLetter(c);
    assert forall c :: IsIdentChar(c) <==> IsLetter(c) || 48 <= c as int <= 57;
  }

  /** "schema.table", with no other dot. */
  predicate IsPair(key: string, schema: string, table: string) {
    key == schema + "." + table && '.' !in schema && '.' !in table
  }

  function Dotted(parts: seq<string>): string
    requires parts != []
  {
    if |parts| == 1 then parts[0] else parts[0] + "." + Dotted(parts[1..])
  }

  lemma {:induction false} SplitIsUndone(key: string)
    ensures Dotted(SplitDots(key)) == key && forall part | part in SplitDots(key) :: '.' !in part
  {
    if key != "" {
      var rest := SplitDots(key[1..]);
      SplitIsUndone(key[1..]);
      if key[0] == '.' {
        assert ([""] + rest)[1..] == rest;
        assert key == "" + "." + key[1..];
      } else {
        PrependChar(key[0], rest);
        assert key == [key[0]] + key[1..];
      }
    }
  }

  lemma PrependChar(c: char, parts: seq<string>)
    requires parts != []
    ensures Dotted([[c] + parts[0]] + parts[1..]) == [c] + Dotted(parts)
  {
    var longer := [[c] + parts[0]] + parts[1..];
    assert longer[1..] == parts[1..];
    if |parts| > 1 {
      assert [c] + parts[0] + "." + Dotted(parts[1..]) == [c] + (parts[0] + "." + Dotted(parts[1..]));
    }
  }

  lemma {:induction false} OnePart(part: string)
    requires '.' !in part
    ensures SplitDots(part) == [part]
  {
    if part != "" {
      OnePart(part[1..]);
      assert part == [part[0]] + part[1..];
    }
  }

  lemma {:induction false} FirstPart(part: string, rest: string)
    requires '.' !in part
    ensures SplitDots(part + "." + rest) == [part] + SplitDots(rest)
  {
    var key := part + "." + rest;
    if part == "" {
      assert key == "." + rest && key[1..] == rest;
    } else {
      FirstPart(part[1..], rest);
      assert key[1..] == part[1..] + "." + rest && part == [part[0]] + part[1..];
      assert ([part[1..]] + SplitDots(rest))[1..] == SplitDots(rest);
    }
  }

  lemma PairIff(key: string, schema: string, table: string)
    ensures SplitDots(key) == [schema, table] <==> IsPair(key, schema, table)
  {
    if SplitDots(key) == [schema, table] {
      SplitIsUndone(key);
      assert [schema, table][1..] == [table];
      assert schema in SplitDots(key) && table in SplitDots(key);
    }
    if IsPair(key, schema, table) {
      FirstPart(schema, table);
      OnePart(table);
    }
  }

  /** A table key whose table can be named. */
  ghost predicate NamesTable(key: string) {
    exists schema, table :: IsPair(key, schema, table) && IsName(table)
  }

  /** A table key whose schema and table can be named. */
  ghost predicate NamesBoth(key: string) {
    exists schema, table :: IsPair(key, schema, table) && IsName(schema) && IsName(table)
  }

  lemma SplitKeyIff(key: string)
    ensures SplitKey(key).Ok? && IsIdentifier(SplitKey(key).value.1) <==> NamesTable(key)
    ensures Qualified(key).Ok? <==> NamesBoth(key)
  {
    var parts := SplitDots(key);
    if |parts| == 2 {
      assert parts == [parts[0], parts[1]];
      PairIff(key, parts[0], parts[1]);
      IdentifierIff(parts[0]);
      IdentifierIff(parts[1]);
    }
    if schema, table :| IsPair(key, schema, table) {
      PairIff(key, schema, table);
      IdentifierIff(schema);
      IdentifierIff(table);
    }
    forall schema, table | IsPair(key, schema, table) ensures parts == [schema, table] {
      PairIff(key, schema, table);
    }
  }

  // ---- The kinds

  /** A column of the table with a name that can be written. */
  predicate IsColumn(columns: Columns, name: string) {
    name in columns && IsName(name)
  }

  lemma ColIff(key: string, columns: Columns, name: string)
    ensures PolicyCompiler.Col(key, columns, name).Ok? <==> IsColumn(columns, name)
  {
    IdentifierIff(name);
  }

  predicate HasTenantColumn(columns: Columns) {
    "tenant_id" in columns || "tenantId" in columns
  }

  predicate HasAccountColumn(entry: Entry, columns: Columns) {
    IsColumn(columns, if entry.column != "" then entry.column else "commercial_account_id")
  }

  ghost predicate HasParentKey(entry: Entry, columns: Columns) {
    NamesBoth(entry.parent) && IsColumn(columns, entry.fk)
  }

  /** What the isolation kind of an entry asks of the table. */
  ghost predicate KindCompiles(entry: Entry, columns: Columns) {
    match entry.kind
    case Tenant => HasTenantColumn(columns)
    case TenantOrShared => HasTenantColumn(columns)
    case TenantOrAccount => HasTenantColumn(columns) && HasAccountColumn(entry, columns)
    case TenantOrParent => HasTenantColumn(columns) && HasParentKey(entry, columns)
    case Account => HasAccountColumn(entry, columns)
    case AccountOrShared => HasAccountColumn(entry, columns)
    case Parent => HasParentKey(entry, columns)
    case TenantPair => entry.columns != [] && forall c | c in entry.columns :: IsColumn(columns, c)
    case GroupAccount => true
    case _ => false
  }

  lemma {:induction false} PairMatchIff(key: string, columns: Columns, names: seq<string>)
    requires names != []
    ensures PairMatch(key, columns, names).Ok? <==> forall c | c in names :: IsColumn(columns, c)
  {
    var init, last := names[..|names| - 1], names[|names| - 1];
    assert names == init + [last];
    ColIff(key, columns, last);
    if |names| > 1 {
      PairMatchIff(key, columns, init);
    }
  }

  lemma PartsIff(key: string, entry: Entry, columns: Columns)
    ensures TenantMatch(key, columns).Ok? <==> HasTenantColumn(columns)
    ensures PolicyCompiler.Col(key, columns, AccountColumn(entry)).Ok? <==> HasAccountColumn(entry, columns)
    ensures ParentVisible(key, entry, columns).Ok? <==> HasParentKey(entry, columns)
    ensures entry.columns != [] ==>
              (PairMatch(key, columns, entry.columns).Ok? <==> forall c | c in entry.columns :: IsColumn(columns, c))
  {
    ColIff(key, columns, AccountColumn(entry));
    ColIff(key, columns, entry.fk);
    SplitKeyIff(entry.parent);
    if entry.columns != [] {
      PairMatchIff(key, columns, entry.columns);
    }
  }

  /** An entry compiles exactly when its table can be named and its kind finds what it asks for. */
  lemma CompilesIff(key: string, entry: Entry, columns: Columns)
    ensures Expressions(key, entry, columns).Ok? <==> NamesTable(key) && KindCompiles(entry, columns)
  {
    SplitKeyIff(key);
    PartsIff(key, entry, columns);
  }
}
