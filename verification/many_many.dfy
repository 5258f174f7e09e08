/** The data assembly of the many-to-many sample's home page: the rows read
    from the `users`, `languages` and `fluencies` tables are projected to
    `{id, name}` records, and every fluency (link) row is joined with the
    names of the user and the language it references, each found by a
    first-match linear search. A reference that matches nothing makes the
    `.name` access throw, which rejects the whole request. */
module ManyMany {
  import opened Wrappers

  /* ---------------------------------------------------------------------
     Rows as the store returns them (their `dataValues`)
     --------------------------------------------------------------------- */

  datatype UserRecord = UserRecord(id: int, userName: string)
  datatype LanguageRecord = LanguageRecord(id: int, languageName: string)
  datatype FluencyRecord = FluencyRecord(userId: int, languageId: int, level: string)

  /** A projected user or language: the `{id, name}` object the handler builds. */
  datatype Entity = Entity(id: int, name: string)

  /** One displayed fluency: `{userId, username, languageId, languagename, level}`. */
  datatype JoinedRow = JoinedRow(userId: int, username: string, languageId: int, languagename: string, level: string)

  /** Which lookup came back `undefined` (its `.name` is what throws). */
  datatype Dangling = UnknownUser(userId: int) | UnknownLanguage(languageId: int)

  /** The rejection of the join: the position of the fluency row being mapped
      when the lookup failed, and which lookup it was. */
  datatype JoinError = JoinError(index: nat, cause: Dangling)

  /** What the handler passes to the `index` view. */
  datatype View = View(people: seq<Entity>, languages: seq<Entity>, fluencies: seq<JoinedRow>)

  /* ---------------------------------------------------------------------
     Projections
     --------------------------------------------------------------------- */

  /** `retrievedData[0].map(...)`: each user row becomes `{id, name: user_name}`. */
  function ProjectUsers(rows: seq<UserRecord>): (r: seq<Entity>)
    ensures |r| == |rows|
    ensures forall i :: 0 <= i < |rows| ==> r[i].id == rows[i].id && r[i].name == rows[i].userName
  {
    if rows == [] then [] else [Entity(rows[0].id, rows[0].userName)] + ProjectUsers(rows[1..])
  }

  /** `retrievedData[1].map(...)`: each language row becomes `{id, name: language_name}`. */
  function ProjectLanguages(rows: seq<LanguageRecord>): (r: seq<Entity>)
    ensures |r| == |rows|
    ensures forall i :: 0 <= i < |rows| ==> r[i].id == rows[i].id && r[i].name == rows[i].languageName
  {
    if rows == [] then [] else [Entity(rows[0].id, rows[0].languageName)] + ProjectLanguages(rows[1..])
  }

  /* ---------------------------------------------------------------------
     First-match lookup
     --------------------------------------------------------------------- */

  /** Some entity of `s` carries `id`. */
  ghost predicate HasId(s: seq<Entity>, id: int) {
    exists k :: 0 <= k < |s| && s[k].id == id
  }

  /** Some user row carries `id`. */
  ghost predicate HasUserId(rows: seq<UserRecord>, id: int) {
    exists k :: 0 <= k < |rows| && rows[k].id == id
  }

  /** Some language row carries `id`. */
  ghost predicate HasLanguageId(rows: seq<LanguageRecord>, id: int) {
    exists k :: 0 <= k < |rows| && rows[k].id == id
  }

  /** Projecting the user rows keeps exactly the ids they carry. */
  lemma ProjectUsersIds(rows: seq<UserRecord>)
    ensures forall id :: HasId(ProjectUsers(rows), id) <==> HasUserId(rows, id)
  {
    var users := ProjectUsers(rows);
    forall id ensures HasId(users, id) <==> HasUserId(rows, id) {
      if HasId(users, id) {
        var k :| 0 <= k < |users| && users[k].id == id;
        assert rows[k].id == id;
      }
      if HasUserId(rows, id) {
        var k :| 0 <= k < |rows| && rows[k].id == id;
        assert users[k].id == id;
      }
    }
  }

  /** Projecting the language rows keeps exactly the ids they carry. */
  lemma ProjectLanguagesIds(rows: seq<LanguageRecord>)
    ensures forall id :: HasId(ProjectLanguages(rows), id) <==> HasLanguageId(rows, id)
  {
    var languages := ProjectLanguages(rows);
    forall id ensures HasId(languages, id) <==> HasLanguageId(rows, id) {
      if HasId(languages, id) {
        var k :| 0 <= k < |languages| && languages[k].id == id;
        assert rows[k].id == id;
      }
      if HasLanguageId(rows, id) {
        var k :| 0 <= k < |rows| && rows[k].id == id;
        assert languages[k].id == id;
      }
    }
  }

  /** `k` is the position of the earliest entity of `s` that carries `id`. */
  ghost predicate IsFirstMatch(s: seq<Entity>, id: int, k: int) {
    && 0 <= k < |s|
    && s[k].id == id
    && forall j :: 0 <= j < k ==> s[j].id != id
  }

  /** `s.find(e => e.id === id)`: a left-to-right scan that stops at the first
      entity whose id is `id`, or `undefined` (None) when there is none. */
  function FindFirst(s: seq<Entity>, id: int): (r: Option<Entity>)
    ensures r.Some? <==> HasId(s, id)
    ensures r.Some? ==> r.value.id == id && r.value in s
  {
    if s == [] then None
    else if s[0].id == id then Some(s[0])
    else
      var r := FindFirst(s[1..], id);
      assert HasId(s[1..], id) ==> HasId(s, id) by {
        if HasId(s[1..], id) {
          var k :| 0 <= k < |s[1..]| && s[1..][k].id == id;
          assert s[k + 1].id == id;
        }
      }
      assert HasId(s, id) ==> HasId(s[1..], id) by {
        if HasId(s, id) {
          var k :| 0 <= k < |s| && s[k].id == id;
          assert k != 0;
          assert s[1..][k - 1].id == id;
        }
      }
      r
  }

  /** The lookup returns exactly the entity at the first matching position. */
  lemma {:induction false} FindFirstIsFirstMatch(s: seq<Entity>, id: int, k: int)
    requires IsFirstMatch(s, id, k)
    ensures FindFirst(s, id) == Some(s[k])
  {
    if k > 0 {
      assert s[0].id != id;
      assert IsFirstMatch(s[1..], id, k - 1);
      FindFirstIsFirstMatch(s[1..], id, k - 1);
    }
  }

  /** Conversely, a successful lookup returns the entity at some first
      matching position. */
  lemma {:induction false} FindFirstHasFirstMatch(s: seq<Entity>, id: int)
    requires FindFirst(s, id).Some?
    ensures exists k :: IsFirstMatch(s, id, k) && s[k] == FindFirst(s, id).value
  {
    if s[0].id == id {
      assert IsFirstMatch(s, id, 0);
    } else {
      FindFirstHasFirstMatch(s[1..], id);
      var k :| IsFirstMatch(s[1..], id, k) && s[1..][k] == FindFirst(s[1..], id).value;
      assert IsFirstMatch(s, id, k + 1);
    }
  }

  /** With duplicate ids the earlier entity shadows the later one: looking up
      in `a + b` consults `b` only when `a` has no match. */
  lemma {:induction false} FindFirstConcat(a: seq<Entity>, b: seq<Entity>, id: int)
    ensures FindFirst(a + b, id) == if FindFirst(a, id).Some? then FindFirst(a, id) else FindFirst(b, id)
  {
    if a == [] {
      assert a + b == b;
    } else {
      assert (a + b)[0] == a[0];
      assert (a + b)[1..] == a[1..] + b;
      FindFirstConcat(a[1..], b, id);
    }
  }

  /** No two entities of `s` share an id (what the store's primary keys give). */
  ghost predicate UniqueIds(s: seq<Entity>) {
    forall i, j :: 0 <= i < j < |s| ==> s[i].id != s[j].id
  }

  /** When ids are unique, the lookup finds the one entity carrying the id,
      wherever it stands. */
  lemma FindFirstUnique(s: seq<Entity>, id: int, k: int)
    requires UniqueIds(s)
    requires 0 <= k < |s| && s[k].id == id
    ensures FindFirst(s, id) == Some(s[k])
  {
    assert IsFirstMatch(s, id, k);
    FindFirstIsFirstMatch(s, id, k);
  }

  /* ---------------------------------------------------------------------
     The fluency join
     --------------------------------------------------------------------- */

  /** Both ids of the fluency row name an existing user and language. */
  ghost predicate Resolves(users: seq<Entity>, languages: seq<Entity>, f: FluencyRecord) {
    HasId(users, f.userId) && HasId(languages, f.languageId)
  }

  /** `j` is what the handler builds from `f`: ids and level copied, each name
      that of the entity the first-match lookup returns. */
  ghost predicate JoinsTo(users: seq<Entity>, languages: seq<Entity>, f: FluencyRecord, j: JoinedRow) {
    && j.userId == f.userId
    && j.languageId == f.languageId
    && j.level == f.level
    && FindFirst(users, f.userId) == Some(Entity(f.userId, j.username))
    && FindFirst(languages, f.languageId) == Some(Entity(f.languageId, j.languagename))
  }

  /** `cause` is the failure mapping `f` raises: the user lookup runs first,
      so a missing language is reported only when the user was found. */
  ghost predicate FailsWith(users: seq<Entity>, languages: seq<Entity>, f: FluencyRecord, cause: Dangling) {
    match cause
    case UnknownUser(uid) => uid == f.userId && !HasId(users, uid)
    case UnknownLanguage(lid) => lid == f.languageId && HasId(users, f.userId) && !HasId(languages, lid)
  }

  /** The callback given to `retrievedData[2].map`, for one fluency row. */
  function JoinRow(users: seq<Entity>, languages: seq<Entity>, f: FluencyRecord): (r: Result<JoinedRow, Dangling>)
    ensures r.Ok? <==> Resolves(users, languages, f)
    ensures r.Ok? ==> JoinsTo(users, languages, f, r.value)
    ensures r.Err? ==> FailsWith(users, languages, f, r.error)
  {
    match FindFirst(users, f.userId)
    case None => Err(UnknownUser(f.userId))
    case Some(user) =>
      match FindFirst(languages, f.languageId)
      case None => Err(UnknownLanguage(f.languageId))
      case Some(language) =>
        Ok(JoinedRow(f.userId, user.name, f.languageId, language.name, f.level))
  }

  /** `error` names the first fluency row that does not resolve: every row
      before it resolves, and the cause is the one mapping that row raises. */
  ghost predicate IsFirstFailure(users: seq<Entity>, languages: seq<Entity>, fluencies: seq<FluencyRecord>, error: JoinError) {
    && error.index < |fluencies|
    && (forall i :: 0 <= i < error.index ==> Resolves(users, languages, fluencies[i]))
    && FailsWith(users, languages, fluencies[error.index], error.cause)
  }

  /** `retrievedData[2].map(...)`: the rows are mapped in order; the first row
      whose lookup misses aborts the whole map. */
  function Join(users: seq<Entity>, languages: seq<Entity>, fluencies: seq<FluencyRecord>): (r: Result<seq<JoinedRow>, JoinError>)
    ensures r.Ok? <==> forall i :: 0 <= i < |fluencies| ==> Resolves(users, languages, fluencies[i])
    ensures r.Ok? ==> |r.value| == |fluencies|
    ensures r.Ok? ==> forall i :: 0 <= i < |fluencies| ==> JoinsTo(users, languages, fluencies[i], r.value[i])
    ensures r.Err? ==> IsFirstFailure(users, languages, fluencies, r.error)
  {
    if fluencies == [] then Ok([])
    else
      match JoinRow(users, languages, fluencies[0])
      case Err(cause) => Err(JoinError(0, cause))
      case Ok(row) =>
        match Join(users, languages, fluencies[1..])
        case Err(e) =>
          assert forall i :: 1 <= i <= e.index ==> fluencies[i] == fluencies[1..][i - 1];
          Err(JoinError(e.index + 1, e.cause))
        case Ok(rest) =>
          assert forall i :: 1 <= i < |fluencies| ==> fluencies[i] == fluencies[1..][i - 1];
          Ok([row] + rest)
  }

  /** With no fluency rows there is nothing to look up: the join yields an
      empty list whatever the users and languages are. */
  lemma JoinEmpty(users: seq<Entity>, languages: seq<Entity>)
    ensures Join(users, languages, []) == Ok([])
  {
  }

  /** The name shown for row `i` is that of the earliest user (language)
      carrying the row's id, even when later entries share that id. */
  lemma {:induction false} JoinNamesAreFirstMatches(users: seq<Entity>, languages: seq<Entity>, fluencies: seq<FluencyRecord>, i: int, ku: int, kl: int)
    requires Join(users, languages, fluencies).Ok?
    requires 0 <= i < |fluencies|
    requires IsFirstMatch(users, fluencies[i].userId, ku)
    requires IsFirstMatch(languages, fluencies[i].languageId, kl)
    ensures Join(users, languages, fluencies).value[i].username == users[ku].name
    ensures Join(users, languages, fluencies).value[i].languagename == languages[kl].name
  {
    FindFirstIsFirstMatch(users, fluencies[i].userId, ku);
    FindFirstIsFirstMatch(languages, fluencies[i].languageId, kl);
  }

  /* ---------------------------------------------------------------------
     The home page handler's data
     --------------------------------------------------------------------- */

  /** Both ids of the fluency row are carried by some user row and some
      language row. */
  ghost predicate RowResolves(userRows: seq<UserRecord>, languageRows: seq<LanguageRecord>, f: FluencyRecord) {
    HasUserId(userRows, f.userId) && HasLanguageId(languageRows, f.languageId)
  }

  /** `cause` is the failure mapping `f` raises, stated on the rows read from
      the store: the user lookup runs first. */
  ghost predicate RowFailsWith(userRows: seq<UserRecord>, languageRows: seq<LanguageRecord>, f: FluencyRecord, cause: Dangling) {
    match cause
    case UnknownUser(uid) => uid == f.userId && !HasUserId(userRows, uid)
    case UnknownLanguage(lid) => lid == f.languageId && HasUserId(userRows, f.userId) && !HasLanguageId(languageRows, lid)
  }

  /** The `.then` callback of `GET /`: project users and languages, join the
      fluencies, and hand all three to the view; a rejected join renders
      nothing and only reaches the logging `.catch`. */
  function HomePage(userRows: seq<UserRecord>, languageRows: seq<LanguageRecord>, fluencyRows: seq<FluencyRecord>): (r: Result<View, JoinError>)
    ensures r.Ok? <==> forall i :: 0 <= i < |fluencyRows| ==> RowResolves(userRows, languageRows, fluencyRows[i])
    ensures r.Ok? ==>
      && |r.value.people| == |userRows|
      && forall i :: 0 <= i < |userRows| ==> r.value.people[i] == Entity(userRows[i].id, userRows[i].userName)
    ensures r.Ok? ==>
      && |r.value.languages| == |languageRows|
      && forall i :: 0 <= i < |languageRows| ==> r.value.languages[i] == Entity(languageRows[i].id, languageRows[i].languageName)
    ensures r.Ok? ==>
      && |r.value.fluencies| == |fluencyRows|
      && forall i :: 0 <= i < |fluencyRows| ==>
        && r.value.fluencies[i].userId == fluencyRows[i].userId
        && r.value.fluencies[i].languageId == fluencyRows[i].languageId
        && r.value.fluencies[i].level == fluencyRows[i].level
    ensures r.Err? ==>
      && r.error.index < |fluencyRows|
      && (forall i :: 0 <= i < r.error.index ==> RowResolves(userRows, languageRows, fluencyRows[i]))
      && RowFailsWith(userRows, languageRows, fluencyRows[r.error.index], r.error.cause)
  {
    var users := ProjectUsers(userRows);
    var languages := ProjectLanguages(languageRows);
    ProjectUsersIds(userRows);
    ProjectLanguagesIds(languageRows);
    match Join(users, languages, fluencyRows)
    case Err(e) => Err(e)
    case Ok(fluencies) => Ok(View(users, languages, fluencies))
  }

  /** The user name displayed for fluency `i` is the `user_name` of the
      earliest user row whose id is the fluency's `userId`. */
  lemma HomePageUserName(userRows: seq<UserRecord>, languageRows: seq<LanguageRecord>, fluencyRows: seq<FluencyRecord>, i: int, k: int)
    requires HomePage(userRows, languageRows, fluencyRows).Ok?
    requires 0 <= i < |fluencyRows|
    requires 0 <= k < |userRows| && userRows[k].id == fluencyRows[i].userId
    requires forall j :: 0 <= j < k ==> userRows[j].id != fluencyRows[i].userId
    ensures HomePage(userRows, languageRows, fluencyRows).value.fluencies[i].username == userRows[k].userName
  {
    var users := ProjectUsers(userRows);
    assert IsFirstMatch(users, fluencyRows[i].userId, k);
    FindFirstIsFirstMatch(users, fluencyRows[i].userId, k);
  }

  /** The language name displayed for fluency `i` is the `language_name` of
      the earliest language row whose id is the fluency's `languageId`. */
  lemma HomePageLanguageName(userRows: seq<UserRecord>, languageRows: seq<LanguageRecord>, fluencyRows: seq<FluencyRecord>, i: int, k: int)
    requires HomePage(userRows, languageRows, fluencyRows).Ok?
    requires 0 <= i < |fluencyRows|
    requires 0 <= k < |languageRows| && languageRows[k].id == fluencyRows[i].languageId
    requires forall j :: 0 <= j < k ==> languageRows[j].id != fluencyRows[i].languageId
    ensures HomePage(userRows, languageRows, fluencyRows).value.fluencies[i].languagename == languageRows[k].languageName
  {
    var languages := ProjectLanguages(languageRows);
    assert IsFirstMatch(languages, fluencyRows[i].languageId, k);
    FindFirstIsFirstMatch(languages, fluencyRows[i].languageId, k);
  }

  /* ---------------------------------------------------------------------
     Two concrete pages
     --------------------------------------------------------------------- */

  /** One user, one language, one fluency between them. */
  lemma ResolvedPage()
    ensures HomePage([UserRecord(1, "Ada")], [LanguageRecord(10, "Rust")], [FluencyRecord(1, 10, "expert")])
         == Ok(View([Entity(1, "Ada")], [Entity(10, "Rust")], [JoinedRow(1, "Ada", 10, "Rust", "expert")]))
  {
    assert ProjectUsers([UserRecord(1, "Ada")]) == [Entity(1, "Ada")];
    assert ProjectLanguages([LanguageRecord(10, "Rust")]) == [Entity(10, "Rust")];
    assert FindFirst([Entity(1, "Ada")], 1) == Some(Entity(1, "Ada"));
    assert FindFirst([Entity(10, "Rust")], 10) == Some(Entity(10, "Rust"));
    var f := FluencyRecord(1, 10, "expert");
    assert [f][1..] == [];
    assert JoinRow([Entity(1, "Ada")], [Entity(10, "Rust")], f) == Ok(JoinedRow(1, "Ada", 10, "Rust", "expert"));
    assert Join([Entity(1, "Ada")], [Entity(10, "Rust")], []) == Ok([]);
    assert [JoinedRow(1, "Ada", 10, "Rust", "expert")] + [] == [JoinedRow(1, "Ada", 10, "Rust", "expert")];
    assert Join([Entity(1, "Ada")], [Entity(10, "Rust")], [f]) == Ok([JoinedRow(1, "Ada", 10, "Rust", "expert")]);
  }

  /** A fluency naming user 2, which does not exist, rejects the page at row 0. */
  lemma DanglingUserPage()
    ensures HomePage([UserRecord(1, "Ada")], [LanguageRecord(10, "Rust")], [FluencyRecord(2, 10, "novice")])
         == Err(JoinError(0, UnknownUser(2)))
  {
  }
}
