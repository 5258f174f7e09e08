# Many-to-many fluency join

A Dafny model of the one piece of logic in the `sequelize-associations`
samples: the data assembly of the many-to-many sample's home page
(`GET /` in `many-many/app.js`). The handler reads every row of the
`users`, `languages` and `fluencies` tables. It projects users and
languages to `{id, name}` records. It then maps every fluency row to
`{userId, username, languageId, languagename, level}`. Each name is
looked up with `Array.prototype.find`, a left-to-right scan that returns
the first entity whose id is `===` to the row's id. When a lookup finds
nothing, `find` returns `undefined`, reading `.name` of it throws, the
promise chain rejects, nothing is rendered, and the error only reaches
the logging `.catch`.

The model is pure, as the source is (`.map` and `.find` with callbacks,
nothing updated after it is bound):

- `wrappers.dfy` — `Option` (what `find` returns) and `Result` (a value or
  the error that a thrown exception carries).
- `many_many.dfy`, module `ManyMany`:
  - the row types and the projected records;
  - the projections `ProjectUsers` and `ProjectLanguages`;
  - the lookup `FindFirst` and lemmas that it returns the first match;
  - the per-row callback `JoinRow` and the fail-fast `Join`;
  - `HomePage`, which puts these together as the handler does.

The rejection is modelled as `JoinError(index, cause)`. `index` is the
position of the fluency row being mapped when the lookup missed. `cause`
says which lookup missed: the user lookup runs first, so `UnknownLanguage`
is reported only for a row whose user exists. Purity and determinism
(the same inputs give the same page) hold by construction, since every
operation is a Dafny function.

Two consequences of the code's lookups and of `.map`:

- With duplicate ids the **earliest** entry wins, since `find` stops at
  the first match (`FindFirstConcat`, `JoinNamesAreFirstMatches`). With
  unique ids, as the tables' primary keys give them, the lookup returns
  the only entity carrying the id (`FindFirstUnique`).
- The first fluency row with a dangling reference aborts the whole
  `.map`, and no row is skipped (`Join`, `HomePage`).

## Model

| member | source | states |
|---|---|---|
| `ManyMany.ProjectUsers` | many-many/app.js:83-88 | one record per user row, same length and order; record i has row i's `id` and its `user_name` as `name` |
| `ManyMany.ProjectLanguages` | many-many/app.js:92-97 | one record per language row, same length and order; record i has row i's `id` and its `language_name` as `name` |
| `ManyMany.ProjectUsersIds` | many-many/app.js:83-88 | the projected users carry exactly the ids of the user rows |
| `ManyMany.ProjectLanguagesIds` | many-many/app.js:92-97 | the projected languages carry exactly the ids of the language rows |
| `ManyMany.FindFirst` | many-many/app.js:102-108 | `find` succeeds exactly when some entity carries the id; what it returns carries that id and is an element of the list |
| `ManyMany.FindFirstIsFirstMatch` | many-many/app.js:102-108 | when position k holds the earliest entity with the id, `find` returns exactly that entity |
| `ManyMany.FindFirstHasFirstMatch` | many-many/app.js:102-108 | every successful `find` returns the entity at the earliest matching position |
| `ManyMany.FindFirstConcat` | many-many/app.js:102-104 | with duplicate ids an earlier entry shadows a later one: a lookup in `a + b` consults `b` only when `a` has no match |
| `ManyMany.FindFirstUnique` | many-many/app.js:102-108 | when ids are unique, `find` returns the entity carrying the id wherever it stands |
| `ManyMany.JoinRow` | many-many/app.js:101-116 | one fluency row joins exactly when both ids resolve; then ids and level are copied and the names are those of the first matches; otherwise the failure is the user lookup's if the user is missing, else the language lookup's |
| `ManyMany.Join` | many-many/app.js:101-117 | the join succeeds iff every fluency row's ids resolve; on success one output row per input row, in order, each with copied ids and level and first-match names; on failure the error names the first unresolved row and its cause, and every earlier row resolves |
| `ManyMany.JoinEmpty` | many-many/app.js:101 | an empty fluency list yields an empty output, whatever the users and languages |
| `ManyMany.JoinNamesAreFirstMatches` | many-many/app.js:102-114 | output row i's `username` and `languagename` are the names of the earliest user and language whose ids equal row i's ids |
| `ManyMany.HomePage` | many-many/app.js:78-129 | the page is rendered iff every fluency's `userId` is the id of some user row and its `languageId` the id of some language row; a rendered page's `people` and `languages` hold, in order, each row's `id` with its `user_name` / `language_name`, and its `fluencies` hold one row per fluency row, in order, with `userId`, `languageId` and `level` copied; a rejected page names the first fluency row whose reference dangles, every earlier row resolving, with its missing user id, or else its missing language id when the user exists |
| `ManyMany.HomePageUserName` | many-many/app.js:83-112 | the user name shown for fluency i is the `user_name` of the earliest user row whose id is the fluency's `userId` |
| `ManyMany.HomePageLanguageName` | many-many/app.js:92-114 | the language name shown for fluency i is the `language_name` of the earliest language row whose id is the fluency's `languageId` |
| `ManyMany.ResolvedPage` | many-many/app.js:78-125 | one user, one language and one fluency between them render as one joined row carrying both names and the level |
| `ManyMany.DanglingUserPage` | many-many/app.js:101-129 | a fluency naming a user id that no row carries rejects the page at row 0 with an unknown-user cause |

## Left out

- Database connection, `authenticate`, table definitions, the `belongsToMany` associations and `sync` (many-many/app.js:7-46, 171-180): ORM and database I/O. The three row lists are parameters of `HomePage`.
- Express setup, the view engine, middleware, `res.render` itself and the `POST /user`, `/language` and `/fluency` handlers (many-many/app.js:49-66, 121-125, 135-166): HTTP plumbing and writes through the ORM. `HomePage` returns the object handed to the view instead of rendering it.
- `Promise.all` and the asynchronous chaining: the three reads are taken as already resolved. A failing read is a store error outside the model.
- `console.log` and `console.error`: logging. A rejected page is the `Err` value the `.catch` would log.
- Values other than integers and strings in the rows (a `null` foreign key or name, an id of another JavaScript type): ids are `int`, compared with `==` as `===` compares two numbers, and names and levels are strings.
- The text of the thrown `TypeError`: the model keeps which row and which lookup failed, not the message.
- `one-one/app.js` and `one-many/app.js`: they only define tables, declare associations and create seed rows through the ORM; there is no logic beyond ORM calls.
