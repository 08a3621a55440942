/**
 * clean_database from the Pokémon assessment service: for every listed table,
 * first delete the rows whose name repeats an earlier one, then delete the
 * placeholder rows, apply the spelling corrections and re-case every name,
 * all in one transaction that is committed at the end or rolled back on the
 * first SQLite error. Tables are sequences of rows in rowid order; a table
 * without a `name` column makes every statement on it fail. Names may be
 * NULL (None), which SQL's GROUP BY puts in one group and `=` never matches.
 */
module PokemonClean {
  import opened JsText

  datatype Row = Row(rowid: int, name: Option<string>, others: seq<string>)

  datatype Table = Table(hasName: bool, rows: seq<Row>)

  type Db = map<string, Table>

  /** rowid is a key. */
  predicate UniqueRowids(rows: seq<Row>)
  {
    forall i, j :: 0 <= i < |rows| && 0 <= j < |rows| && rows[i].rowid == rows[j].rowid ==> i == j
  }

  // ---------------------------------------------------------------------------
  // Deduplication: DELETE ... WHERE rowid NOT IN (SELECT MIN(rowid) ... GROUP BY name)
  // ---------------------------------------------------------------------------

  /** x has the smallest rowid of its name group in `all`. */
  predicate IsFirstOfName(all: seq<Row>, x: Row)
  {
    forall y :: y in all && y.name == x.name ==> x.rowid <= y.rowid
  }

  function KeepFirsts(rows: seq<Row>, all: seq<Row>): (r: seq<Row>)
    ensures forall x :: x in r <==> x in rows && IsFirstOfName(all, x)
    ensures |r| <= |rows|
  {
    if rows == [] then []
    else (if IsFirstOfName(all, rows[0]) then [rows[0]] else []) + KeepFirsts(rows[1..], all)
  }

  /** The rows the deduplicating DELETE keeps, in their order. */
  function Dedup(rows: seq<Row>): seq<Row>
  {
    KeepFirsts(rows, rows)
  }

  /** KeepFirsts keeps a subsequence, so distinct rowids stay distinct. */
  lemma {:induction false} KeepFirstsUnique(rows: seq<Row>, all: seq<Row>)
    requires UniqueRowids(rows)
    ensures UniqueRowids(KeepFirsts(rows, all))
  {
    if rows != [] {
      KeepFirstsUnique(rows[1..], all);
      var rest := KeepFirsts(rows[1..], all);
      assert forall x :: x in rest ==> x in rows[1..];
      forall i, j | 0 <= i < |rows[1..]| && 0 <= j < |rows[1..]| && rows[1..][i].rowid == rows[1..][j].rowid
        ensures i == j
      {
        assert rows[i + 1].rowid == rows[j + 1].rowid;
      }
      forall x | x in rows[1..]
        ensures x.rowid != rows[0].rowid
      {
        var k :| 0 <= k < |rows[1..]| && rows[1..][k] == x;
        assert rows[k + 1] == x;
      }
    }
  }

  /** Every name group keeps a row: the group member with the smallest rowid. */
  lemma {:induction false} GroupHasFirst(all: seq<Row>, x: Row)
    requires x in all
    ensures exists y :: y in all && y.name == x.name && IsFirstOfName(all, y)
  {
    var best := x;
    var i := 0;
    while i < |all|
      invariant 0 <= i <= |all|
      invariant best in all && best.name == x.name
      invariant forall k :: 0 <= k < i && all[k].name == x.name ==> best.rowid <= all[k].rowid
    {
      if all[i].name == x.name && all[i].rowid < best.rowid {
        best := all[i];
      }
      i := i + 1;
    }
    assert IsFirstOfName(all, best);
  }

  /**
   * Deduplication keeps, for every name present, exactly one row, the one
   * with the smallest rowid, and deletes every other row.
   */
  lemma DedupOnePerName(rows: seq<Row>)
    requires UniqueRowids(rows)
    ensures forall x :: x in Dedup(rows) <==> x in rows && IsFirstOfName(rows, x)
    ensures forall x :: x in rows ==> exists y :: y in Dedup(rows) && y.name == x.name
    ensures forall y, z :: y in Dedup(rows) && z in Dedup(rows) && y.name == z.name ==> y == z
    ensures UniqueRowids(Dedup(rows))
  {
    KeepFirstsUnique(rows, rows);
    forall x | x in rows
      ensures exists y :: y in Dedup(rows) && y.name == x.name
    {
      GroupHasFirst(rows, x);
    }
    forall y, z | y in Dedup(rows) && z in Dedup(rows) && y.name == z.name
      ensures y == z
    {
      assert y.rowid == z.rowid;
      var i :| 0 <= i < |rows| && rows[i] == y;
      var j :| 0 <= j < |rows| && rows[j] == z;
    }
  }

  // ---------------------------------------------------------------------------
  // Placeholders, corrections and casing
  // ---------------------------------------------------------------------------

  const Placeholders: seq<string> := ["---", "???", ""]

  /** The corrections dictionary, in its insertion order. */
  const Corrections: seq<(string, string)> :=
    [("Pikuchu", "Pikachu"), ("Charmanderr", "Charmander"), ("Bulbasuar", "Bulbasaur"),
     ("Poision", "Poison"), ("gras", "Grass")]

  /** DELETE ... WHERE name = placeholder */
  function DeleteNamed(rows: seq<Row>, placeholder: string): (r: seq<Row>)
    ensures forall x :: x in r <==> x in rows && x.name != Some(placeholder)
    ensures |r| <= |rows|
  {
    if rows == [] then []
    else (if rows[0].name == Some(placeholder) then [] else [rows[0]]) + DeleteNamed(rows[1..], placeholder)
  }

  /** UPDATE ... SET name = correct WHERE name = wrong */
  function Rename(rows: seq<Row>, wrong: string, correct: string): (r: seq<Row>)
    ensures |r| == |rows|
    ensures forall i :: 0 <= i < |rows| ==>
      r[i] == (if rows[i].name == Some(wrong) then rows[i].(name := Some(correct)) else rows[i])
  {
    if rows == [] then []
    else [if rows[0].name == Some(wrong) then rows[0].(name := Some(correct)) else rows[0]]
         + Rename(rows[1..], wrong, correct)
  }

  /** `UPPER(SUBSTR(name, 1, 1)) || LOWER(SUBSTR(name, 2))`, with SQLite's ASCII-only case mapping. */
  function Recase(s: string): (r: string)
    ensures |r| == |s|
  {
    if s == [] then [] else [UpperChar(s[0])] + ToLower(s[1..])
  }

  function RecaseName(name: Option<string>): Option<string>
  {
    match name
    case None => None
    case Some(s) => Some(Recase(s))
  }

  /** The re-casing UPDATE over every row. */
  function RecaseAll(rows: seq<Row>): (r: seq<Row>)
    ensures |r| == |rows|
    ensures forall i :: 0 <= i < |rows| ==> r[i] == rows[i].(name := RecaseName(rows[i].name))
  {
    if rows == [] then [] else [rows[0].(name := RecaseName(rows[0].name))] + RecaseAll(rows[1..])
  }

  /** The placeholder DELETEs in list order. */
  function DeleteAll(rows: seq<Row>, placeholders: seq<string>): seq<Row>
  {
    if placeholders == [] then rows
    else DeleteNamed(DeleteAll(rows, placeholders[..|placeholders| - 1]), placeholders[|placeholders| - 1])
  }

  /** The correcting UPDATEs in dictionary order. */
  function RenameAll(rows: seq<Row>, corrections: seq<(string, string)>): seq<Row>
  {
    if corrections == [] then rows
    else
      var last := corrections[|corrections| - 1];
      Rename(RenameAll(rows, corrections[..|corrections| - 1]), last.0, last.1)
  }

  lemma DeleteAllStep(rows: seq<Row>, placeholders: seq<string>, i: int)
    requires 0 <= i < |placeholders|
    ensures DeleteAll(rows, placeholders[..i + 1]) == DeleteNamed(DeleteAll(rows, placeholders[..i]), placeholders[i])
  {
    assert placeholders[..i + 1][..i] == placeholders[..i];
  }

  lemma RenameAllStep(rows: seq<Row>, corrections: seq<(string, string)>, j: int)
    requires 0 <= j < |corrections|
    ensures RenameAll(rows, corrections[..j + 1]) == Rename(RenameAll(rows, corrections[..j]), corrections[j].0, corrections[j].1)
  {
    assert corrections[..j + 1][..j] == corrections[..j];
  }

  /** The second pass over one table. */
  function FixRows(rows: seq<Row>): seq<Row>
  {
    RecaseAll(RenameAll(DeleteAll(rows, Placeholders), Corrections))
  }

  /** Re-casing an already re-cased name changes nothing. */
  lemma RecaseIdempotent(s: string)
    ensures Recase(Recase(s)) == Recase(s)
  {
    if s != [] {
      var r := Recase(s);
      assert r[0] == UpperChar(s[0]);
      assert r[1..] == ToLower(s[1..]);
      assert UpperChar(UpperChar(s[0])) == UpperChar(s[0]);
      var t := ToLower(r[1..]);
      assert forall i :: 0 <= i < |t| ==> t[i] == LowerChar(LowerChar(s[1..][i])) == r[1..][i];
      assert t == r[1..];
    }
  }

  /** Placeholders contain no letter, so only a placeholder re-cases to one. */
  lemma RecasePlaceholder(s: string)
    ensures Recase(s) in Placeholders ==> s in Placeholders
  {
    var r := Recase(s);
    if |s| == 3 {
      assert r[0] == UpperChar(s[0]);
      assert forall i :: 1 <= i < 3 ==> r[i] == LowerChar(s[i]) by {
        assert r[1..] == ToLower(s[1..]);
      }
      if r == "---" {
        assert s[0] == '-' && s[1] == '-' && s[2] == '-';
        assert s == "---";
      }
      if r == "???" {
        assert s[0] == '?' && s[1] == '?' && s[2] == '?';
        assert s == "???";
      }
    }
  }

  /** The name a row carries after the correcting UPDATEs, in dictionary order. */
  function CorrectName(name: Option<string>, corrections: seq<(string, string)>): Option<string>
  {
    if corrections == [] then name
    else
      var last := corrections[|corrections| - 1];
      var n := CorrectName(name, corrections[..|corrections| - 1]);
      if n == Some(last.0) then Some(last.1) else n
  }

  /** The renames work row by row: each row keeps its place and gets its corrected name. */
  lemma {:induction false} RenameAllRows(rows: seq<Row>, corrections: seq<(string, string)>)
    ensures |RenameAll(rows, corrections)| == |rows|
    ensures forall i :: 0 <= i < |rows| ==>
      RenameAll(rows, corrections)[i] == rows[i].(name := CorrectName(rows[i].name, corrections))
  {
    if corrections != [] {
      RenameAllRows(rows, corrections[..|corrections| - 1]);
    }
  }

  /** No corrected name is a misspelling further down the list, so the corrections act as one lookup. */
  lemma CorrectionLookup(n: string)
    ensures CorrectName(Some(n), Corrections) ==
      if n == "Pikuchu" then Some("Pikachu")
      else if n == "Charmanderr" then Some("Charmander")
      else if n == "Bulbasuar" then Some("Bulbasaur")
      else if n == "Poision" then Some("Poison")
      else if n == "gras" then Some("Grass")
      else Some(n)
  {
    var name := Some(n);
    var c1 := CorrectName(name, Corrections[..1]);
    CorrectStep(name, Corrections[..1], "Pikuchu", "Pikachu", Corrections[..0]);
    var c2 := CorrectName(name, Corrections[..2]);
    CorrectStep(name, Corrections[..2], "Charmanderr", "Charmander", Corrections[..1]);
    var c3 := CorrectName(name, Corrections[..3]);
    CorrectStep(name, Corrections[..3], "Bulbasuar", "Bulbasaur", Corrections[..2]);
    var c4 := CorrectName(name, Corrections[..4]);
    CorrectStep(name, Corrections[..4], "Poision", "Poison", Corrections[..3]);
    CorrectStep(name, Corrections[..5], "gras", "Grass", Corrections[..4]);
    assert Corrections[..5] == Corrections;
  }

  /** One more correction: the name so far, replaced when it is that correction's misspelling. */
  lemma CorrectStep(name: Option<string>, cs: seq<(string, string)>, wrong: string, correct: string, init: seq<(string, string)>)
    requires cs == init + [(wrong, correct)]
    ensures CorrectName(name, cs) ==
      if CorrectName(name, init) == Some(wrong) then Some(correct) else CorrectName(name, init)
  {
    assert cs[..|cs| - 1] == init;
  }

  /** The placeholder DELETEs keep exactly the rows whose name is no placeholder. */
  lemma {:induction false} DeleteAllRemoves(rows: seq<Row>, placeholders: seq<string>)
    ensures forall x :: x in DeleteAll(rows, placeholders) <==>
      x in rows && forall p :: p in placeholders ==> x.name != Some(p)
  {
    if placeholders != [] {
      DeleteAllRemoves(rows, placeholders[..|placeholders| - 1]);
      forall x | x in rows
        ensures (forall p :: p in placeholders ==> x.name != Some(p)) <==>
          (forall p :: p in placeholders[..|placeholders| - 1] ==> x.name != Some(p))
          && x.name != Some(placeholders[|placeholders| - 1])
      {
        assert placeholders == placeholders[..|placeholders| - 1] + [placeholders[|placeholders| - 1]];
      }
    }
  }

  /** A table holding no placeholder name comes through the DELETEs unchanged, order included. */
  lemma {:induction false} DeleteAllKeepsClean(rows: seq<Row>, placeholders: seq<string>)
    requires forall x, p :: x in rows && p in placeholders ==> x.name != Some(p)
    ensures DeleteAll(rows, placeholders) == rows
  {
    if placeholders != [] {
      var init := placeholders[..|placeholders| - 1];
      assert forall p :: p in init ==> p in placeholders;
      DeleteAllKeepsClean(rows, init);
      DeleteNamedKeepsClean(rows, placeholders[|placeholders| - 1]);
    }
  }

  lemma {:induction false} DeleteNamedKeepsClean(rows: seq<Row>, placeholder: string)
    requires forall x :: x in rows ==> x.name != Some(placeholder)
    ensures DeleteNamed(rows, placeholder) == rows
  {
    if rows != [] {
      assert rows[0] in rows;
      assert forall x :: x in rows[1..] ==> x in rows;
      DeleteNamedKeepsClean(rows[1..], placeholder);
      assert [rows[0]] + rows[1..] == rows;
    }
  }

  /** The second pass row by row: the placeholder rows go, every other row keeps its place and gets its corrected, re-cased name. */
  lemma FixRowsByRow(rows: seq<Row>)
    ensures var kept := DeleteAll(rows, Placeholders);
      |FixRows(rows)| == |kept| &&
      forall i :: 0 <= i < |kept| ==>
        FixRows(rows)[i] == kept[i].(name := RecaseName(CorrectName(kept[i].name, Corrections)))
  {
    RenameAllRows(DeleteAll(rows, Placeholders), Corrections);
  }

  /** A corrected name is the name itself or the correct side of one correction. */
  lemma {:induction false} CorrectNameFrom(name: Option<string>, corrections: seq<(string, string)>)
    ensures CorrectName(name, corrections) == name ||
      exists c :: c in corrections && CorrectName(name, corrections) == Some(c.1)
  {
    if corrections != [] {
      var init := corrections[..|corrections| - 1];
      CorrectNameFrom(name, init);
      assert forall c :: c in init ==> c in corrections;
      assert corrections[|corrections| - 1] in corrections;
    }
  }

  /** A name that is no misspelling goes through the corrections untouched. */
  lemma {:induction false} CorrectNameUntouched(name: Option<string>, corrections: seq<(string, string)>)
    requires forall c :: c in corrections ==> name != Some(c.0)
    ensures CorrectName(name, corrections) == name
  {
    if corrections != [] {
      var init := corrections[..|corrections| - 1];
      assert forall c :: c in init ==> c in corrections;
      CorrectNameUntouched(name, init);
      assert corrections[|corrections| - 1] in corrections;
    }
  }

  /** No correction is a placeholder. */
  lemma CorrectionsNotPlaceholders()
    ensures forall c :: c in Corrections ==> c.1 !in Placeholders
  {
  }

  /** A corrected and re-cased name is never a placeholder. */
  lemma FixedNameNotPlaceholder(name: Option<string>)
    requires name.Some? ==> name.value !in Placeholders
    ensures var fixed := RecaseName(CorrectName(name, Corrections));
      fixed.Some? ==> fixed.value !in Placeholders
  {
    CorrectNameFrom(name, Corrections);
    if name.Some? {
      CorrectionsNotPlaceholders();
      RecasePlaceholder(CorrectName(name, Corrections).value);
    }
  }

  /** Rows that each carry the fixed name of a row without a placeholder name carry no placeholder name. */
  lemma FixedRowsClean(fixed: seq<Row>, kept: seq<Row>)
    requires forall x :: x in kept ==> x.name.None? || x.name.value !in Placeholders
    requires |fixed| == |kept|
    requires forall i :: 0 <= i < |kept| ==>
      fixed[i] == kept[i].(name := RecaseName(CorrectName(kept[i].name, Corrections)))
    ensures forall x :: x in fixed ==> x.name.None? || x.name.value !in Placeholders
  {
    forall x | x in fixed
      ensures x.name.None? || x.name.value !in Placeholders
    {
      var i :| 0 <= i < |fixed| && fixed[i] == x;
      assert kept[i] in kept;
      FixedNameNotPlaceholder(kept[i].name);
    }
  }

  /** After the second pass no row carries a placeholder name. */
  lemma NoPlaceholdersLeft(rows: seq<Row>)
    ensures forall x :: x in FixRows(rows) ==> x.name.None? || x.name.value !in Placeholders
  {
    DeleteAllRemoves(rows, Placeholders);
    FixRowsByRow(rows);
    FixedRowsClean(FixRows(rows), DeleteAll(rows, Placeholders));
  }

  /** A capital first letter and no capital after it, which re-casing leaves as it is. */
  predicate Capitalised(s: string)
  {
    s != [] && !IsAsciiLower(s[0]) && forall i :: 1 <= i < |s| ==> !IsAsciiUpper(s[i])
  }

  lemma RecaseKeepsCapitalised(s: string)
    requires Capitalised(s)
    ensures Recase(s) == s
  {
    assert ToLower(s[1..]) == s[1..];
  }

  /** Every correction is capitalised, so the re-casing that follows keeps it. */
  lemma CorrectionsCapitalised()
    ensures forall c :: c in Corrections ==> Capitalised(c.1)
  {
  }

  /** A row named exactly as a misspelling comes out with its correction. */
  lemma MisspellingCorrected(x: Row, wrong: string, correct: string)
    requires (wrong, correct) in Corrections
    requires x.name == Some(wrong)
    ensures FixRows([x]) == [x.(name := Some(correct))]
  {
    MisspellingsNotPlaceholders();
    FixCleanRows([x]);
    CorrectionsApply();
    CorrectionsCapitalised();
    RecaseKeepsCapitalised(correct);
  }

  /** No misspelling is a placeholder. */
  lemma MisspellingsNotPlaceholders()
    ensures forall c :: c in Corrections ==> c.0 !in Placeholders
  {
  }

  /** Each misspelling comes out of the corrections as its own correction. */
  lemma CorrectionsApply()
    ensures forall c :: c in Corrections ==> CorrectName(Some(c.0), Corrections) == Some(c.1)
  {
    CorrectionLookup("Pikuchu");
    CorrectionLookup("Charmanderr");
    CorrectionLookup("Bulbasuar");
    CorrectionLookup("Poision");
    CorrectionLookup("gras");
  }

  /** A table without placeholder names keeps every row in place, each with its corrected, re-cased name. */
  lemma FixCleanRows(rows: seq<Row>)
    requires forall x :: x in rows ==> x.name.None? || x.name.value !in Placeholders
    ensures |FixRows(rows)| == |rows|
    ensures forall i :: 0 <= i < |rows| ==>
      FixRows(rows)[i] == rows[i].(name := RecaseName(CorrectName(rows[i].name, Corrections)))
  {
    assert forall x, p :: x in rows && p in Placeholders ==> x.name != Some(p);
    DeleteAllKeepsClean(rows, Placeholders);
    FixRowsByRow(rows);
  }

  /**
   * Corrections match case-sensitively before re-casing, so a case variant of
   * a misspelling that is not itself listed ("PIKUCHU") comes out as the
   * misspelling ("Pikuchu") rather than as its correction.
   */
  lemma CaseVariantOfMisspellingSurvives(x: Row, v: string, wrong: string, correct: string)
    requires (wrong, correct) in Corrections
    requires x.name == Some(v) && v !in Placeholders
    requires forall c :: c in Corrections ==> v != c.0
    requires Recase(v) == wrong
    ensures FixRows([x]) == [x.(name := Some(wrong))]
    ensures wrong != correct
  {
    FixCleanRows([x]);
    CorrectNameUntouched(x.name, Corrections);
  }

  // ---------------------------------------------------------------------------
  // The whole database
  // ---------------------------------------------------------------------------

  /** Every listed table exists and has a name column, so no statement fails. */
  predicate Cleanable(db: Db, tables: seq<string>)
  {
    forall t :: t in tables ==> t in db && db[t].hasName
  }

  /** The first loop: deduplicate the listed tables in order. */
  function DedupTables(db: Db, tables: seq<string>): (r: Db)
    requires Cleanable(db, tables)
    ensures r.Keys == db.Keys
    ensures forall t :: t in db ==> r[t].hasName == db[t].hasName
    ensures forall t :: t in db && t !in tables ==> r[t] == db[t]
  {
    if tables == [] then db
    else
      var before := DedupTables(db, tables[..|tables| - 1]);
      var t := tables[|tables| - 1];
      before[t := before[t].(rows := Dedup(before[t].rows))]
  }

  /** The second loop: placeholders, corrections and casing for the listed tables in order. */
  function FixTables(db: Db, tables: seq<string>): (r: Db)
    requires Cleanable(db, tables)
    ensures r.Keys == db.Keys
    ensures forall t :: t in db ==> r[t].hasName == db[t].hasName
    ensures forall t :: t in db && t !in tables ==> r[t] == db[t]
  {
    if tables == [] then db
    else
      var before := FixTables(db, tables[..|tables| - 1]);
      var t := tables[|tables| - 1];
      before[t := before[t].(rows := FixRows(before[t].rows))]
  }

  /** What a committed clean_database leaves. */
  function Cleaned(db: Db, tables: seq<string>): Db
    requires Cleanable(db, tables)
  {
    FixTables(DedupTables(db, tables), tables)
  }

  /** A table listed once is deduplicated and then fixed; every other table is untouched. */
  lemma CleanedOnce(db: Db, tables: seq<string>, t: string)
    requires Cleanable(db, tables)
    requires t in tables && multiset(tables)[t] == 1
    ensures Cleaned(db, tables)[t] == db[t].(rows := FixRows(Dedup(db[t].rows)))
  {
    DedupOnce(db, tables, t);
    FixOnce(DedupTables(db, tables), tables, t);
  }

  lemma {:induction false} DedupOnce(db: Db, tables: seq<string>, t: string)
    requires Cleanable(db, tables)
    requires t in tables && multiset(tables)[t] == 1
    ensures DedupTables(db, tables)[t] == db[t].(rows := Dedup(db[t].rows))
  {
    var init := tables[..|tables| - 1];
    var last := tables[|tables| - 1];
    assert tables == init + [last];
    assert Cleanable(db, init) by {
      assert forall u :: u in init ==> u in tables;
    }
    var before := DedupTables(db, init);
    assert DedupTables(db, tables) == before[last := before[last].(rows := Dedup(before[last].rows))];
    if last != t {
      assert multiset(init)[t] == 1;
      DedupOnce(db, init, t);
    } else {
      assert multiset(init)[t] == 0;
    }
  }

  lemma {:induction false} FixOnce(db: Db, tables: seq<string>, t: string)
    requires Cleanable(db, tables)
    requires t in tables && multiset(tables)[t] == 1
    ensures FixTables(db, tables)[t] == db[t].(rows := FixRows(db[t].rows))
  {
    var init := tables[..|tables| - 1];
    var last := tables[|tables| - 1];
    assert tables == init + [last];
    assert Cleanable(db, init) by {
      assert forall u :: u in init ==> u in tables;
    }
    var before := FixTables(db, init);
    assert FixTables(db, tables) == before[last := before[last].(rows := FixRows(before[last].rows))];
    if last != t {
      assert multiset(init)[t] == 1;
      FixOnce(db, init, t);
    } else {
      assert multiset(init)[t] == 0;
    }
  }

  /** One more listed table: cleanable when it exists and has a name column, and then deduplicated. */
  lemma DedupTablesStep(db: Db, tables: seq<string>, i: int)
    requires 0 <= i < |tables| && Cleanable(db, tables[..i])
    requires var t := tables[i]; t in db && db[t].hasName
    ensures Cleanable(db, tables[..i + 1])
    ensures var before := DedupTables(db, tables[..i]);
      DedupTables(db, tables[..i + 1]) == before[tables[i] := before[tables[i]].(rows := Dedup(before[tables[i]].rows))]
  {
    assert tables[..i + 1] == tables[..i] + [tables[i]];
    assert tables[..i + 1][..i] == tables[..i];
  }

  /** One more listed table, fixed. */
  lemma FixTablesStep(db: Db, tables: seq<string>, i: int)
    requires 0 <= i < |tables| && Cleanable(db, tables)
    ensures Cleanable(db, tables[..i]) && Cleanable(db, tables[..i + 1])
    ensures var before := FixTables(db, tables[..i]);
      FixTables(db, tables[..i + 1]) == before[tables[i] := before[tables[i]].(rows := FixRows(before[tables[i]].rows))]
  {
    assert forall t :: t in tables[..i + 1] ==> t in tables;
    assert tables[..i + 1][..i] == tables[..i];
  }

  /**
   * As written, the table list is read from a cursor that never ran the
   * sqlite_master query, so it is empty whatever the database holds.
   */
  function TablesAsWritten(master: seq<string>): seq<string>
  {
    []
  }

  /** The table list as evidently intended: the names the sqlite_master query returns. */
  function TablesIntended(master: seq<string>): seq<string>
  {
    master
  }

  /** As written, cleaning commits without changing any table. */
  lemma AsWrittenCleansNothing(db: Db, master: seq<string>)
    ensures Cleanable(db, TablesAsWritten(master))
    ensures Cleaned(db, TablesAsWritten(master)) == db
  {
  }

  /** Two rows in rowid order: the later one goes exactly when it repeats the earlier one's name. */
  lemma DedupPair(a: Row, b: Row)
    requires a.rowid < b.rowid
    ensures Dedup([a, b]) == if a.name == b.name then [a] else [a, b]
  {
    var all := [a, b];
    assert IsFirstOfName(all, a);
    assert IsFirstOfName(all, b) <==> a.name != b.name by {
      assert a in all;
    }
    assert all[1..] == [b];
    assert KeepFirsts([b], all) == (if IsFirstOfName(all, b) then [b] else []) + KeepFirsts([], all);
  }

  /** A table holding a duplicate shows it: the intended list removes the later row, the written one keeps both. */
  lemma AsWrittenKeepsDuplicate(db: Db, t: string, a: Row, b: Row)
    requires db == map[t := Table(true, [a, b])]
    requires a.rowid < b.rowid && a.name == b.name
    ensures Cleaned(db, TablesAsWritten([t]))[t].rows == [a, b]
    ensures Cleaned(db, TablesIntended([t]))[t].rows == FixRows([a])
  {
    assert multiset([t])[t] == 1;
    CleanedOnce(db, [t], t);
    DedupPair(a, b);
  }

  /**
   * With the intended list a table without a name column (the link table,
   * which sqlite_master also lists) makes the first DELETE fail, so the whole
   * clean rolls back.
   */
  lemma NamelessTableBlocksClean(db: Db, tables: seq<string>, t: string)
    requires t in tables && t in db && !db[t].hasName
    ensures !Cleanable(db, tables)
  {
  }

  /**
   * Names need not be unique afterwards: two names that differ only in case
   * ("fire" and "Fire") are different groups to GROUP BY, so both rows stay,
   * and re-casing then gives them the same name.
   */
  lemma CaseVariantsBothKept(a: Row, b: Row, u: string, v: string)
    requires a.rowid < b.rowid && a.name == Some(u) && b.name == Some(v) && u != v
    requires u !in Placeholders && v !in Placeholders
    requires forall c :: c in Corrections ==> u != c.0 && v != c.0
    requires Capitalised(v) && Recase(u) == v
    ensures FixRows(Dedup([a, b])) == [a.(name := Some(v)), b]
  {
    DedupPair(a, b);
    FixCleanRows([a, b]);
    CorrectNameUntouched(a.name, Corrections);
    CorrectNameUntouched(b.name, Corrections);
    RecaseKeepsCapitalised(v);
    var fixed := FixRows([a, b]);
    assert fixed[0] == a.(name := Some(v));
    assert fixed[1] == b.(name := Some(v)) == b;
  }

  /** The connection clean_database works through. */
  class Connection {
    var tables: Db

    constructor (db: Db)
      ensures tables == db
    {
      tables := db;
    }

    /** The deduplicating DELETE on one table; it fails on a missing table or one without a name column. */
    method DeleteDuplicates(t: string) returns (ok: bool)
      modifies this
      ensures ok <==> t in old(tables) && old(tables)[t].hasName
      ensures tables == if ok then old(tables)[t := old(tables)[t].(rows := Dedup(old(tables)[t].rows))]
                        else old(tables)
    {
      ok := t in tables && tables[t].hasName;
      if ok {
        tables := tables[t := tables[t].(rows := Dedup(tables[t].rows))];
      }
    }

    /** The placeholder DELETEs, the correcting UPDATEs and the re-casing UPDATE on one table. */
    method FixTable(t: string) returns (ok: bool)
      modifies this
      ensures ok <==> t in old(tables) && old(tables)[t].hasName
      ensures tables == if ok then old(tables)[t := old(tables)[t].(rows := FixRows(old(tables)[t].rows))]
                        else old(tables)
    {
      ok := t in tables && tables[t].hasName;
      if !ok {
        return;
      }
      var db := tables;
      var rows := db[t].rows;
      ghost var original := rows;
      var i := 0;
      while i < |Placeholders|
        invariant 0 <= i <= |Placeholders|
        invariant rows == DeleteAll(original, Placeholders[..i])
      {
        DeleteAllStep(original, Placeholders, i);
        rows := DeleteNamed(rows, Placeholders[i]);
        i := i + 1;
      }
      assert Placeholders[..i] == Placeholders;
      var j := 0;
      var deleted := rows;
      while j < |Corrections|
        invariant 0 <= j <= |Corrections|
        invariant rows == RenameAll(deleted, Corrections[..j])
      {
        RenameAllStep(deleted, Corrections, j);
        rows := Rename(rows, Corrections[j].0, Corrections[j].1);
        j := j + 1;
      }
      assert Corrections[..j] == Corrections;
      rows := RecaseAll(rows);
      assert rows == FixRows(original);
      tables := db[t := db[t].(rows := rows)];
    }

    /** The first loop: deduplicate every listed table, stopping at the first failing statement. */
    method DeduplicateListed(tableList: seq<string>) returns (ok: bool)
      modifies this
      ensures ok <==> Cleanable(old(tables), tableList)
      ensures ok ==> tables == DedupTables(old(tables), tableList)
    {
      var i := 0;
      while i < |tableList|
        invariant 0 <= i <= |tableList|
        invariant Cleanable(old(tables), tableList[..i])
        invariant tables == DedupTables(old(tables), tableList[..i])
      {
        ok := DeleteDuplicates(tableList[i]);
        if !ok {
          assert tableList[i] in tableList;
          return;
        }
        DedupTablesStep(old(tables), tableList, i);
        i := i + 1;
      }
      assert tableList[..i] == tableList;
      ok := true;
    }

    /** The second loop: placeholders, corrections and casing on every listed table. */
    method FixListed(tableList: seq<string>)
      requires Cleanable(tables, tableList)
      modifies this
      ensures tables == FixTables(old(tables), tableList)
    {
      var j := 0;
      while j < |tableList|
        invariant 0 <= j <= |tableList|
        invariant tables == FixTables(old(tables), tableList[..j])
      {
        assert tableList[j] in tableList;
        var ok := FixTable(tableList[j]);
        FixTablesStep(old(tables), tableList, j);
        j := j + 1;
      }
      assert tableList[..j] == tableList;
    }

    /**
     * clean_database over a table list: both loops, committed when every
     * statement succeeds, rolled back to the state before the first one
     * otherwise.
     */
    method CleanDatabase(tableList: seq<string>) returns (committed: bool)
      modifies this
      ensures committed <==> Cleanable(old(tables), tableList)
      ensures committed ==> tables == Cleaned(old(tables), tableList)
      ensures !committed ==> tables == old(tables)
    {
      var snapshot := tables;
      committed := DeduplicateListed(tableList);
      if !committed {
        tables := snapshot;
        return;
      }
      FixListed(tableList);
    }
  }
}
