# Task manager: tables, constraints and CRUD handlers

This project models a small Flask application that tracks tasks. The tasks are
grouped into named categories. The model covers two things:

- the two database tables and the constraints the schema puts on them
  (`taskmanager/models.py`);
- the eight request handlers that read and change those tables
  (`taskmanager/routes.py`).

The database is a `Store` object (`routes.dfy`). It holds two maps:

- `categories`: from a primary key to a `Category` row (its name);
- `tasks`: from a primary key to a `Task` row (name, description, urgency
  flag, due date, and the key of its category).

The store also holds the next values of the two primary-key sequences.
`Store.Valid()` is the schema as an object invariant:

- category names are unique;
- task names are unique;
- every task's `categoryId` is the key of a stored category;
- every key was handed out by its sequence.

Non-null columns are non-optional fields of the row datatypes.

Each handler is a method that takes the request (`Get`, or `Post` with the
submitted form) and returns an `Outcome`: `Redirect(page)`, `Render(page)`,
`NotFound` or `ConstraintViolation`.

- **Form fields.** A form field the submission leaves out is `None`, as
  `request.form.get` returns.
- **Failed commits.** The database checks its constraints at commit. A write
  that breaks one commits nothing, so the method returns
  `ConstraintViolation` and leaves the store unchanged (`unchanged(this)`).
- **Commit checks.** `CategoryWriteOk` and `TaskWriteOk` are those checks.
  The lemmas `CategoryWriteOkIffSchema` and `TaskWriteOkIffSchema` prove that
  each check accepts exactly the writes that keep the schema.
- **Listings.** The two `ORDER BY` listings are the recursive functions
  `OrderedById` and `OrderedByName`. Their contracts say the result is sorted
  and holds every row of the table exactly once.
- **`__repr__`.** Both `__repr__` methods are functions (`CategoryRepr`, `TaskRepr`). `ParseTaskRepr` is a decoder
  proved to be the inverse of `TaskRepr` on the key, the name and the flag.

The model follows the code; two behaviours to note:

- `edit_category` redirects to the category list after a POST
  (`taskmanager/routes.py:46`). `edit_task` renders its edit page again
  (`taskmanager/routes.py:93`).
- Names and the description are declared only `nullable=False`. So an empty
  string is accepted; only a missing field violates the constraint.

Files:

- `options.dfy`: the `Option` type.
- `text.dfy`: decimal text of integers and its parser; lexicographic string
  order.
- `models.dfy`: rows, constraints, cascade, `__repr__`.
- `queries.dfy`: the sorted listings.
- `routes.dfy`: forms, outcomes, and the `Store` with its handlers.

## Model

| member | source | states |
|---|---|---|
| `Routes.Store.constructor` | taskmanager/models.py:9 | An empty database satisfies every constraint; both key sequences start at 1. |
| `Routes.Store.Home` | taskmanager/routes.py:8-11 | Renders the tasks page with every stored task exactly once, in strictly ascending key order; changes nothing. |
| `Routes.Store.Categories` | taskmanager/routes.py:16-19 | Renders the categories page with every stored category exactly once, with strictly ascending names; changes nothing. |
| `Routes.Store.AddCategory` | taskmanager/routes.py:25-33 | GET renders the form and changes nothing. POST with a name no category has adds exactly that category under a fresh key, leaves the tasks alone and redirects to the category list. A missing or duplicate name is a constraint violation that leaves the store unchanged. The schema invariant is kept. |
| `Routes.Store.EditCategory` | taskmanager/routes.py:40-47 | An unknown key is NotFound and changes nothing. GET renders the form. POST replaces only that category's name, keeping its key, all keys and all tasks, and redirects to the category list. A missing name, or one another category has, is a constraint violation that changes nothing. |
| `Routes.Store.DeleteCategory` | taskmanager/routes.py:52-57 | An unknown key is NotFound and changes nothing. Otherwise it removes that category and exactly the tasks whose category it was, leaves every other row as it was, keeps the invariant (no orphan task) and redirects to the category list. |
| `Routes.Store.AddTask` | taskmanager/routes.py:63-77 | Always lists every category in name order for the form. GET renders the form. POST with every required field and a valid write inserts exactly the submitted task, with the urgency flag coerced, under a fresh key and redirects home; categories are unchanged. A missing field, a duplicate name or an unknown category is a constraint violation that changes nothing. |
| `Routes.Store.EditTask` | taskmanager/routes.py:82-93 | An unknown key is NotFound and changes nothing. Otherwise it lists the categories. POST overwrites all five fields with exactly the submitted values (no merge with the old row), keeps every key and renders the edit page again instead of redirecting. A refused write changes nothing. |
| `Routes.Store.DeleteTask` | taskmanager/routes.py:98-103 | An unknown key is NotFound and changes nothing. Otherwise only that task is removed, categories and other tasks are unchanged, and it redirects home. |
| `Routes.WorkScenario` | taskmanager/routes.py:25-103 | On a fresh database: a task created without the urgency field is not urgent; a second category named "Work" is refused; deleting the category leaves its task not found. |
| `Models.CategoryWriteOkIffSchema` | taskmanager/models.py:13 | A category write passes the commit check iff the tables still satisfy every constraint afterwards. |
| `Models.TaskWriteOkIffSchema` | taskmanager/models.py:35-52 | A task write passes the commit check (unique name, existing category) iff the tables still satisfy every constraint afterwards. |
| `Models.CascadeKeepsSchema` | taskmanager/models.py:19 | Deleting a category together with the tasks that belong to it (the cascading relationship) keeps uniqueness and referential integrity. |
| `Models.DeleteWithoutCascadeOrphans` | taskmanager/models.py:52 | Deleting a category that still has a task, without the cascade, would break the foreign key. |
| `Models.CategoryReprIdentifies` | taskmanager/models.py:21-24 | `__repr__` is the category name, so within a table that keeps the unique constraint two categories have equal representations only if they are the same category. |
| `Models.ParseTaskReprRoundTrip` | taskmanager/models.py:54-60 | Decoding a task's representation (a hash sign, the key, ` - Task: `, the name, then ` Urgent: ` after a bar, then `True` or `False`) gives back its key, name and urgency flag. |
| `Models.TaskReprIdentifies` | taskmanager/models.py:58-60 | Tasks with different keys have different representations. |
| `Text.ParseIntToString` | taskmanager/models.py:58-59 | The decimal text the format string writes for the key reads back as the same integer. |
| `Queries.OrderedById` | taskmanager/routes.py:10 | Every row of the table exactly once, in strictly ascending key order. |
| `Queries.OrderedByName` | taskmanager/routes.py:18 | Every category exactly once, in ascending name order. |
| `Queries.NamesStrictlyAscending` | taskmanager/routes.py:65 | Under the unique-name constraint, a listing in name order has strictly ascending names. |

## Left out

- `taskmanager/static/js/script.js` only sets up browser widgets and has no logic to model.
- Flask's request parsing, `render_template` and the URLs built by
  `url_for`/`redirect` are left out. An outcome names only the target view. The
  rows a rendered edit page shows are not returned.
- The SQLAlchemy session, lazy loading and the `category` backref are
  abstracted: a task's category is the lookup `categories[t.categoryId]`. Each
  commit is one atomic update of the store.
- An integrity error is not caught in the source, so it surfaces as a server
  error. The model returns it as `ConstraintViolation`, and the session
  rollback that would follow is not modelled.
- The text-to-date and text-to-integer conversion of `due_date` and
  `category_id` is done by the database layer and is left out. The form
  carries them already converted. `Date` is a plain year/month/day record the
  handlers never inspect, so impossible dates are not excluded. A malformed
  value is not modelled.
- The length limits `String(25)` and `String(50)` are not enforced: whether
  they are depends on the database backend.
- The model assumes a database that enforces foreign keys (PostgreSQL does;
  SQLite does not by default).
- Names are ordered by plain code-point lexicographic order, not by the
  backend's collation. Equal names, which the unique constraint rules out, are
  ordered by key.
- Keys come from a sequence that never reuses a value. A refused insert leaves
  the sequence where it was, although a real sequence would have used up one
  value.
- Keys are unbounded integers. The `db.Integer` key columns are 32-bit on
  PostgreSQL, whose sequence stops at 2147483647; after that every insert
  fails. The model's `AddCategory` and `AddTask` never run out of keys.
- A task's representation before it has a key (Python would print `None` for
  the key) is not modelled; the key is always an integer.
