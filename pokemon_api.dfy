/**
 * The Pokémon assessment service's endpoints over the cleaned database: the
 * four read queries, which answer the DISTINCT names a join finds or 404 when
 * there are none, and add_pokemon, which takes a PokeAPI reply and links the
 * Pokémon, its first ability and the first trainer through get-or-insert
 * steps in one transaction. Tables are sequences of rows in rowid order; the
 * PokeAPI reply and whether the database file opens are inputs.
 */
module PokemonApi {
  import opened JsText
  import PokemonClean

  datatype NamedRow = NamedRow(id: int, name: string)
  datatype PokemonRow = PokemonRow(id: int, name: string, type1: int, type2: Option<int>)
  datatype LinkRow = LinkRow(id: int, pokemonId: int, trainerId: int, abilityId: int)

  /** The five tables: types, pokemon, abilities, trainers, trainer_pokemon_abilities. */
  datatype Store = Store(types: seq<NamedRow>, pokemon: seq<PokemonRow>, abilities: seq<NamedRow>,
                         trainers: seq<NamedRow>, links: seq<LinkRow>)

  /** A read endpoint's answer: the names, in no particular order, or an HTTP error. */
  datatype Reply = Names(names: set<string>) | Failure(status: int, detail: string)

  const ConnectionFailed: string := "Database connection failed."

  // ---------------------------------------------------------------------------
  // Read endpoints
  // ---------------------------------------------------------------------------

  /** SELECT DISTINCT p.name ... JOIN trainer_pokemon_abilities ... JOIN abilities ... WHERE a.name = ? */
  function PokemonWithAbility(db: Store, ability: string): set<string>
  {
    set p, l, a | p in db.pokemon && l in db.links && a in db.abilities
      && p.id == l.pokemonId && l.abilityId == a.id && a.name == ability :: p.name
  }

  /** SELECT DISTINCT a.name ... WHERE p.name = ? */
  function AbilitiesOfPokemon(db: Store, pokemon: string): set<string>
  {
    set p, l, a | p in db.pokemon && l in db.links && a in db.abilities
      && p.id == l.pokemonId && l.abilityId == a.id && p.name == pokemon :: a.name
  }

  /** SELECT DISTINCT t.name FROM trainers t JOIN trainer_pokemon_abilities ... JOIN pokemon ... WHERE p.name = ? */
  function TrainersOfPokemon(db: Store, pokemon: string): set<string>
  {
    set t, l, p | t in db.trainers && l in db.links && p in db.pokemon
      && t.id == l.trainerId && l.pokemonId == p.id && p.name == pokemon :: t.name
  }

  /** A pokemon row matches a type: its type1 must join a types row; that row's name or the LEFT-JOINed type2 row's name must be the type. */
  predicate HasType(db: Store, p: PokemonRow, typeName: string)
  {
    exists t1 :: t1 in db.types && t1.id == p.type1 &&
      (t1.name == typeName || exists t2 :: t2 in db.types && p.type2 == Some(t2.id) && t2.name == typeName)
  }

  /** SELECT DISTINCT p.name FROM pokemon p JOIN types t1 ... LEFT JOIN types t2 ... WHERE t1.name = ? OR t2.name = ? */
  function PokemonOfType(db: Store, typeName: string): set<string>
  {
    set p | p in db.pokemon && HasType(db, p, typeName) :: p.name
  }

  /** The shared tail of the read endpoints: no row is a 404. */
  function Answer(found: set<string>, notFound: string): (r: Reply)
    ensures r.Names? <==> found != {}
    ensures r.Names? ==> r.names == found
    ensures r.Failure? ==> r.status == 404 && r.detail == notFound
  {
    if found == {} then Failure(404, notFound) else Names(found)
  }

  /** GET /pokemon/ability/{ability_name}; None is a database that does not open. */
  function GetPokemonByAbility(db: Option<Store>, abilityName: string): (r: Reply)
    ensures db.None? ==> r == Failure(500, ConnectionFailed)
    ensures db.Some? ==> r == Answer(PokemonWithAbility(db.value, abilityName),
                                     "No Pokémon found with ability '" + abilityName + "'.")
  {
    match db
    case None => Failure(500, ConnectionFailed)
    case Some(s) => Answer(PokemonWithAbility(s, abilityName), "No Pokémon found with ability '" + abilityName + "'.")
  }

  /** GET /pokemon/type/{type_name} */
  function GetPokemonByType(db: Option<Store>, typeName: string): (r: Reply)
    ensures db.None? ==> r == Failure(500, ConnectionFailed)
    ensures db.Some? ==> r == Answer(PokemonOfType(db.value, typeName),
                                     "No Pokémon found with type '" + typeName + "'.")
  {
    match db
    case None => Failure(500, ConnectionFailed)
    case Some(s) => Answer(PokemonOfType(s, typeName), "No Pokémon found with type '" + typeName + "'.")
  }

  /** GET /trainers/pokemon/{pokemon_name} */
  function GetTrainersByPokemon(db: Option<Store>, pokemonName: string): (r: Reply)
    ensures db.None? ==> r == Failure(500, ConnectionFailed)
    ensures db.Some? ==> r == Answer(TrainersOfPokemon(db.value, pokemonName),
                                     "No Pokémon found where trainer has '" + pokemonName + "'.")
  {
    match db
    case None => Failure(500, ConnectionFailed)
    case Some(s) => Answer(TrainersOfPokemon(s, pokemonName), "No Pokémon found where trainer has '" + pokemonName + "'.")
  }

  /** GET /abilities/pokemon/{pokemon_name} */
  function GetAbilitiesByPokemon(db: Option<Store>, pokemonName: string): (r: Reply)
    ensures db.None? ==> r == Failure(500, ConnectionFailed)
    ensures db.Some? ==> r == Answer(AbilitiesOfPokemon(db.value, pokemonName),
                                     "No abilities found for Pokémon '" + pokemonName + "'.")
  {
    match db
    case None => Failure(500, ConnectionFailed)
    case Some(s) => Answer(AbilitiesOfPokemon(s, pokemonName), "No abilities found for Pokémon '" + pokemonName + "'.")
  }

  /** The ability query and the abilities-of-a-pokemon query read the same links in opposite directions. */
  lemma AbilityQueriesAreConverse(db: Store, pokemon: string, ability: string)
    ensures pokemon in PokemonWithAbility(db, ability) <==> ability in AbilitiesOfPokemon(db, pokemon)
  {
    if pokemon in PokemonWithAbility(db, ability) {
      var p, l, a :| p in db.pokemon && l in db.links && a in db.abilities
        && p.id == l.pokemonId && l.abilityId == a.id && a.name == ability && p.name == pokemon;
      assert a.name in AbilitiesOfPokemon(db, pokemon);
    }
    if ability in AbilitiesOfPokemon(db, pokemon) {
      var p, l, a :| p in db.pokemon && l in db.links && a in db.abilities
        && p.id == l.pokemonId && l.abilityId == a.id && p.name == pokemon && a.name == ability;
      assert p.name in PokemonWithAbility(db, ability);
    }
  }

  /** A pokemon is found by a type exactly when its type1 row or its type2 row carries that name (type1 joined). */
  lemma TypeMatchesEitherSlot(db: Store, p: PokemonRow, t1: NamedRow, typeName: string)
    requires p in db.pokemon && t1 in db.types && t1.id == p.type1
    ensures t1.name == typeName ==> p.name in PokemonOfType(db, typeName)
    ensures forall t2 :: t2 in db.types && p.type2 == Some(t2.id) && t2.name == typeName ==>
      p.name in PokemonOfType(db, typeName)
  {
    if t1.name == typeName {
      assert HasType(db, p, typeName);
    }
    forall t2 | t2 in db.types && p.type2 == Some(t2.id) && t2.name == typeName
      ensures p.name in PokemonOfType(db, typeName)
    {
      assert HasType(db, p, typeName);
    }
  }

  /** Every name the type query answers is a pokemon whose type1 or type2 row carries the type. */
  lemma TypeAnswersAreSound(db: Store, typeName: string, name: string)
    requires name in PokemonOfType(db, typeName)
    ensures exists p :: p in db.pokemon && p.name == name && HasType(db, p, typeName)
  {
  }

  /** The inner join on type1: a pokemon whose type1 id names no types row is not found even by its type2. */
  lemma DanglingType1Hides(db: Store, typeName: string, p: PokemonRow)
    requires forall q :: q in db.pokemon && q.name == p.name ==> q == p
    requires forall t :: t in db.types ==> t.id != p.type1
    ensures p.name !in PokemonOfType(db, typeName)
  {
  }

  // ---------------------------------------------------------------------------
  // Get-or-insert
  // ---------------------------------------------------------------------------

  function Ids(rows: seq<NamedRow>): (r: seq<int>)
    ensures |r| == |rows| && forall i :: 0 <= i < |rows| ==> r[i] == rows[i].id
  {
    if rows == [] then [] else [rows[0].id] + Ids(rows[1..])
  }

  function PokemonIds(rows: seq<PokemonRow>): (r: seq<int>)
    ensures |r| == |rows| && forall i :: 0 <= i < |rows| ==> r[i] == rows[i].id
  {
    if rows == [] then [] else [rows[0].id] + PokemonIds(rows[1..])
  }

  function LinkIds(rows: seq<LinkRow>): (r: seq<int>)
    ensures |r| == |rows| && forall i :: 0 <= i < |rows| ==> r[i] == rows[i].id
  {
    if rows == [] then [] else [rows[0].id] + LinkIds(rows[1..])
  }

  /** The rowid an INSERT without one gets: one more than the largest, or 1 in an empty table. */
  function NextRowid(ids: seq<int>): (r: int)
    ensures forall i :: 0 <= i < |ids| ==> ids[i] < r
    ensures ids == [] ==> r == 1
    ensures ids != [] ==> exists i :: 0 <= i < |ids| && r == ids[i] + 1
  {
    if ids == [] then 1
    else
      var rest := NextRowid(ids[..|ids| - 1]);
      var last := ids[|ids| - 1];
      if |ids| == 1 || last + 1 > rest then last + 1 else rest
  }

  /** `SELECT id FROM ... WHERE name = ?` and fetchone: the id of the first row with that name. */
  function FindId(rows: seq<NamedRow>, name: string): (r: Option<int>)
    ensures r.None? <==> forall i :: 0 <= i < |rows| ==> rows[i].name != name
    ensures r.Some? ==> exists i :: 0 <= i < |rows| && rows[i].name == name && rows[i].id == r.value
  {
    if rows == [] then None
    else if rows[0].name == name then Some(rows[0].id)
    else
      var r := FindId(rows[1..], name);
      assert forall i :: 0 < i < |rows| ==> rows[i] == rows[1..][i - 1];
      r
  }

  function FindPokemonId(rows: seq<PokemonRow>, name: string): (r: Option<int>)
    ensures r.None? <==> forall i :: 0 <= i < |rows| ==> rows[i].name != name
    ensures r.Some? ==> exists i :: 0 <= i < |rows| && rows[i].name == name && rows[i].id == r.value
  {
    if rows == [] then None
    else if rows[0].name == name then Some(rows[0].id)
    else
      var r := FindPokemonId(rows[1..], name);
      assert forall i :: 0 < i < |rows| ==> rows[i] == rows[1..][i - 1];
      r
  }

  /**
   * Get or insert a name in types or abilities: an existing row's id and the
   * table unchanged, or a new row with a fresh id appended.
   */
  function GetOrInsert(rows: seq<NamedRow>, name: string): (r: (int, seq<NamedRow>))
    ensures FindId(rows, name).Some? ==> r == (FindId(rows, name).value, rows)
    ensures FindId(rows, name).None? ==> r.1 == rows + [NamedRow(r.0, name)]
    ensures FindId(rows, name).None? ==> forall i :: 0 <= i < |rows| ==> rows[i].id < r.0
  {
    match FindId(rows, name)
    case Some(id) => (id, rows)
    case None => var id := NextRowid(Ids(rows)); (id, rows + [NamedRow(id, name)])
  }

  /** Get or insert a pokemon; an existing row keeps the types it has. */
  function GetOrInsertPokemon(rows: seq<PokemonRow>, name: string, type1: int, type2: Option<int>): (r: (int, seq<PokemonRow>))
    ensures FindPokemonId(rows, name).Some? ==> r == (FindPokemonId(rows, name).value, rows)
    ensures FindPokemonId(rows, name).None? ==> r.1 == rows + [PokemonRow(r.0, name, type1, type2)]
    ensures FindPokemonId(rows, name).None? ==> forall i :: 0 <= i < |rows| ==> rows[i].id < r.0
  {
    match FindPokemonId(rows, name)
    case Some(id) => (id, rows)
    case None => var id := NextRowid(PokemonIds(rows)); (id, rows + [PokemonRow(id, name, type1, type2)])
  }

  /** After get-or-insert the table holds a row with that name and the returned id. */
  lemma GetOrInsertNames(rows: seq<NamedRow>, name: string)
    ensures var r := GetOrInsert(rows, name);
      exists i :: 0 <= i < |r.1| && r.1[i].name == name && r.1[i].id == r.0
  {
    var r := GetOrInsert(rows, name);
    if FindId(rows, name).None? {
      assert r.1[|rows|] == NamedRow(r.0, name);
    }
  }

  /** A second get-or-insert of the same name finds the row the first one returned and inserts nothing. */
  lemma GetOrInsertIdempotent(rows: seq<NamedRow>, name: string)
    ensures var r := GetOrInsert(rows, name);
      GetOrInsert(r.1, name) == r
  {
    var r := GetOrInsert(rows, name);
    if FindId(rows, name).None? {
      FindAfterAppend(rows, name, r.0);
    }
  }

  /** Appending a row with a new name: the lookup now finds the appended row. */
  lemma {:induction false} FindAfterAppend(rows: seq<NamedRow>, name: string, id: int)
    requires FindId(rows, name).None?
    ensures FindId(rows + [NamedRow(id, name)], name) == Some(id)
  {
    if rows != [] {
      assert (rows + [NamedRow(id, name)])[1..] == rows[1..] + [NamedRow(id, name)];
      assert rows[0].name != name;
      assert FindId(rows[1..], name).None? by {
        forall i | 0 <= i < |rows[1..]|
          ensures rows[1..][i].name != name
        {
          assert rows[1..][i] == rows[i + 1];
        }
      }
      FindAfterAppend(rows[1..], name, id);
    }
  }

  // ---------------------------------------------------------------------------
  // add_pokemon
  // ---------------------------------------------------------------------------

  /** What PokeAPI answered: the HTTP status and, on 200, the names it lists. */
  datatype PokeApi = PokeApi(status: int, name: string, types: seq<string>, abilities: seq<string>)

  /** POST /pokemon/Add/{pokemon_name}'s answer: the new link row's id or an HTTP error. */
  datatype AddReply = Added(id: int) | AddFailure(status: int, detail: string)

  const NoTrainers: string := "No trainers found in the database."
  const InternalError: string := "Internal Server Error"

  /** str.capitalize, which on ASCII text is the cleaning pass's re-casing. */
  function Capitalize(s: string): (r: string)
    ensures |r| == |s|
  {
    PokemonClean.Recase(s)
  }

  /** The type2 name: a second listed type, skipped when it capitalises to the empty, falsy string. */
  function SecondType(api: PokeApi): (r: Option<string>)
    ensures r.Some? <==> |api.types| > 1 && api.types[1] != ""
  {
    if |api.types| > 1 && Capitalize(api.types[1]) != "" then Some(Capitalize(api.types[1])) else None
  }

  /** The type rows: the first type, then the second when there is one, each by get-or-insert. */
  function StoreTypes(types: seq<NamedRow>, api: PokeApi): (int, Option<int>, seq<NamedRow>)
    requires api.types != []
  {
    var (t1, types1) := GetOrInsert(types, Capitalize(api.types[0]));
    match SecondType(api)
    case None => (t1, None, types1)
    case Some(n) => var g := GetOrInsert(types1, n); (t1, Some(g.0), g.1)
  }

  /** The committed writes: types, pokemon and ability by get-or-insert, then one new link to the first trainer. */
  function Link(s: Store, api: PokeApi): (r: (int, Store))
    requires api.types != [] && api.abilities != [] && s.trainers != []
  {
    var (t1, t2, types2) := StoreTypes(s.types, api);
    var (pid, pokemon1) := GetOrInsertPokemon(s.pokemon, Capitalize(api.name), t1, t2);
    var (aid, abilities1) := GetOrInsert(s.abilities, Capitalize(api.abilities[0]));
    var lid := NextRowid(LinkIds(s.links));
    (lid, Store(types2, pokemon1, abilities1, s.trainers, s.links + [LinkRow(lid, pid, s.trainers[0].id, aid)]))
  }

  /**
   * add_pokemon: 404 when PokeAPI does not answer 200; 500 when the reply
   * lists no type or no ability (the index error), when the database does
   * not open, or when there is no trainer, in which case the uncommitted
   * inserts are discarded; otherwise the new link's id.
   */
  function AddOutcome(s: Store, requested: string, api: PokeApi, connected: bool): (r: (AddReply, Store))
    ensures r.0.AddFailure? ==> r.1 == s
    ensures r.0.Added? <==> api.status == 200 && api.types != [] && api.abilities != [] && connected && s.trainers != []
  {
    if api.status != 200 then (AddFailure(404, "Pokémon '" + requested + "' not found in PokeAPI."), s)
    else if api.types == [] || api.abilities == [] then (AddFailure(500, InternalError), s)
    else if !connected then (AddFailure(500, ConnectionFailed), s)
    else if s.trainers == [] then (AddFailure(500, NoTrainers), s)
    else var (lid, s') := Link(s, api); (Added(lid), s')
  }

  /** A successful add leaves the trainers alone and appends exactly one link row, with a fresh id, to the first trainer. */
  lemma AddAppendsOneLink(s: Store, requested: string, api: PokeApi, connected: bool)
    requires AddOutcome(s, requested, api, connected).0.Added?
    ensures var (reply, s') := AddOutcome(s, requested, api, connected);
      s'.trainers == s.trainers &&
      |s'.links| == |s.links| + 1 && s'.links[..|s.links|] == s.links &&
      s'.links[|s.links|].id == reply.id && s'.links[|s.links|].trainerId == s.trainers[0].id &&
      forall i :: 0 <= i < |s.links| ==> s.links[i].id < reply.id
  {
    var s' := AddOutcome(s, requested, api, connected).1;
    assert s'.links == s.links + [s'.links[|s.links|]];
  }

  /** When the pokemon, its types and its ability are stored already, a successful add only appends the link. */
  lemma AddReusesExistingRows(s: Store, requested: string, api: PokeApi, connected: bool)
    requires AddOutcome(s, requested, api, connected).0.Added?
    requires FindId(s.types, Capitalize(api.types[0])).Some?
    requires SecondType(api).Some? ==> FindId(s.types, SecondType(api).value).Some?
    requires FindPokemonId(s.pokemon, Capitalize(api.name)).Some?
    requires FindId(s.abilities, Capitalize(api.abilities[0])).Some?
    ensures var s' := AddOutcome(s, requested, api, connected).1;
      s'.types == s.types && s'.pokemon == s.pokemon && s'.abilities == s.abilities
  {
  }

  /** Round trip: after a successful add the read endpoints find the pokemon by its ability, its ability by name, and the trainer it went to. */
  lemma AddedPokemonIsFound(s: Store, requested: string, api: PokeApi, connected: bool)
    requires AddOutcome(s, requested, api, connected).0.Added?
    ensures var s' := AddOutcome(s, requested, api, connected).1;
      var pokemon := Capitalize(api.name);
      var ability := Capitalize(api.abilities[0]);
      pokemon in PokemonWithAbility(s', ability) &&
      ability in AbilitiesOfPokemon(s', pokemon) &&
      s.trainers[0].name in TrainersOfPokemon(s', pokemon)
  {
    var s' := AddOutcome(s, requested, api, connected).1;
    var pokemon := Capitalize(api.name);
    var ability := Capitalize(api.abilities[0]);
    var (t1, t2, types2) := StoreTypes(s.types, api);
    var (pid, pokemon1) := GetOrInsertPokemon(s.pokemon, pokemon, t1, t2);
    var (aid, abilities1) := GetOrInsert(s.abilities, ability);
    assert s'.pokemon == pokemon1 && s'.abilities == abilities1;
    var l := s'.links[|s.links|];
    assert l in s'.links;
    assert l.pokemonId == pid && l.abilityId == aid && l.trainerId == s.trainers[0].id;
    var p: PokemonRow :| p in pokemon1 && p.name == pokemon && p.id == pid by {
      if FindPokemonId(s.pokemon, pokemon).None? {
        assert pokemon1[|s.pokemon|] in pokemon1;
      } else {
        var i :| 0 <= i < |s.pokemon| && s.pokemon[i].name == pokemon && s.pokemon[i].id == pid;
        assert s.pokemon[i] in pokemon1;
      }
    }
    GetOrInsertNames(s.abilities, ability);
    var j :| 0 <= j < |abilities1| && abilities1[j].name == ability && abilities1[j].id == aid;
    var a := abilities1[j];
    var t := s.trainers[0];
    assert t in s'.trainers;
    assert p.name in PokemonWithAbility(s', ability);
    assert a.name in AbilitiesOfPokemon(s', pokemon);
    assert t.name in TrainersOfPokemon(s', pokemon);
  }

  /** Adding the same reply twice stores the pokemon, its types and its ability once and links it twice. */
  lemma AddTwiceLinksTwice(s: Store, requested: string, api: PokeApi, connected: bool)
    requires AddOutcome(s, requested, api, connected).0.Added?
    ensures var s1 := AddOutcome(s, requested, api, connected).1;
      var s2 := AddOutcome(s1, requested, api, connected).1;
      AddOutcome(s1, requested, api, connected).0.Added? &&
      s2.types == s1.types && s2.pokemon == s1.pokemon && s2.abilities == s1.abilities &&
      |s2.links| == |s1.links| + 1
  {
    var s1 := AddOutcome(s, requested, api, connected).1;
    StoreTypesIdempotent(s.types, api);
    PokemonFoundAfterGetOrInsert(s, api);
    GetOrInsertIdempotent(s.abilities, Capitalize(api.abilities[0]));
    assert s1.types == StoreTypes(s.types, api).2;
    assert s1.abilities == GetOrInsert(s.abilities, Capitalize(api.abilities[0])).1;
  }

  /** Storing the same types twice finds both rows the first time stored and inserts nothing. */
  lemma StoreTypesIdempotent(types: seq<NamedRow>, api: PokeApi)
    requires api.types != []
    ensures var r := StoreTypes(types, api); StoreTypes(r.2, api) == r
  {
    var n1 := Capitalize(api.types[0]);
    var g1 := GetOrInsert(types, n1);
    GetOrInsertIdempotent(types, n1);
    if SecondType(api).Some? {
      var n2 := SecondType(api).value;
      var g2 := GetOrInsert(g1.1, n2);
      GetOrInsertIdempotent(g1.1, n2);
      FindKeepsFirst(g1.1, n1, g2.1[|g1.1|..]);
      assert g2.1 == g1.1 + g2.1[|g1.1|..];
    }
  }

  /** A name found in a table is found at the same row after rows are appended. */
  lemma {:induction false} FindKeepsFirst(rows: seq<NamedRow>, name: string, extra: seq<NamedRow>)
    requires FindId(rows, name).Some?
    ensures FindId(rows + extra, name) == FindId(rows, name)
  {
    if rows[0].name != name {
      assert (rows + extra)[1..] == rows[1..] + extra;
      FindKeepsFirst(rows[1..], name, extra);
    }
  }

  lemma PokemonFoundAfterGetOrInsert(s: Store, api: PokeApi)
    requires api.types != [] && api.abilities != [] && s.trainers != []
    ensures FindPokemonId(Link(s, api).1.pokemon, Capitalize(api.name)).Some?
  {
    var rows := Link(s, api).1.pokemon;
    var name := Capitalize(api.name);
    if FindPokemonId(s.pokemon, name).None? {
      assert rows[|s.pokemon|].name == name;
    } else {
      var i :| 0 <= i < |s.pokemon| && s.pokemon[i].name == name;
      assert rows[i].name == name;
    }
  }

  /** With no trainer the add fails with 500 and nothing it inserted is kept. */
  lemma NoTrainerDiscardsInserts(s: Store, requested: string, api: PokeApi)
    requires api.status == 200 && api.types != [] && api.abilities != []
    requires s.trainers == []
    ensures AddOutcome(s, requested, api, true) == (AddFailure(500, NoTrainers), s)
  {
  }

  /** Names arrive capitalised, so a stored pokemon already has the casing the cleaning pass gives. */
  lemma AddedNamesAreClean(s: Store, requested: string, api: PokeApi, connected: bool)
    requires AddOutcome(s, requested, api, connected).0.Added?
    requires FindPokemonId(s.pokemon, Capitalize(api.name)).None?
    ensures var s' := AddOutcome(s, requested, api, connected).1;
      PokemonClean.Recase(s'.pokemon[|s.pokemon|].name) == s'.pokemon[|s.pokemon|].name
  {
    PokemonClean.RecaseIdempotent(api.name);
  }

  /** The database add_pokemon writes through. */
  class Database {
    var types: seq<NamedRow>
    var pokemon: seq<PokemonRow>
    var abilities: seq<NamedRow>
    var trainers: seq<NamedRow>
    var links: seq<LinkRow>

    function State(): Store
      reads this
    {
      Store(types, pokemon, abilities, trainers, links)
    }

    constructor (s: Store)
      ensures State() == s
    {
      types, pokemon, abilities, trainers, links := s.types, s.pokemon, s.abilities, s.trainers, s.links;
    }

    /** add_pokemon's steps in order, with the uncommitted inserts dropped when no trainer is found. */
    method AddPokemon(requested: string, api: PokeApi, connected: bool) returns (reply: AddReply)
      modifies this
      ensures (reply, State()) == AddOutcome(old(State()), requested, api, connected)
    {
      if api.status != 200 {
        return AddFailure(404, "Pokémon '" + requested + "' not found in PokeAPI.");
      }
      if api.types == [] || api.abilities == [] {
        return AddFailure(500, InternalError);
      }
      var pokeName := Capitalize(api.name);
      var type1Name := Capitalize(api.types[0]);
      var type2Name := SecondType(api);
      var abilityName := Capitalize(api.abilities[0]);
      if !connected {
        return AddFailure(500, ConnectionFailed);
      }
      var snapshot := State();
      var g := GetOrInsert(types, type1Name);
      var type1Id := g.0;
      types := g.1;
      var type2Id: Option<int> := None;
      if type2Name.Some? {
        g := GetOrInsert(types, type2Name.value);
        type2Id := Some(g.0);
        types := g.1;
      }
      assert (type1Id, type2Id, types) == StoreTypes(snapshot.types, api);
      var gp := GetOrInsertPokemon(pokemon, pokeName, type1Id, type2Id);
      var pokemonId := gp.0;
      pokemon := gp.1;
      g := GetOrInsert(abilities, abilityName);
      var abilityId := g.0;
      abilities := g.1;
      if trainers == [] {
        types, pokemon, abilities := snapshot.types, snapshot.pokemon, snapshot.abilities;
        assert State() == snapshot;
        return AddFailure(500, NoTrainers);
      }
      var trainerId := trainers[0].id;
      var newId := NextRowid(LinkIds(links));
      links := links + [LinkRow(newId, pokemonId, trainerId, abilityId)];
      assert (newId, State()) == Link(snapshot, api);
      reply := Added(newId);
    }
  }
}
