/** The two tables of the task manager, the constraints the database enforces
    on them, and the textual representations of their rows.

    A category row holds its name; a task row holds its name, description,
    urgency flag, due date and the key of the category it belongs to. Keys are
    kept beside the rows (a table is a map from key to row), as a primary key
    column is. */
module Models {

  import opened Options
  import opened Text

  /** A primary key. */
  type Id = int

  /** A calendar date: a plain year/month/day record that the handlers pass
      through without looking inside; impossible dates are not excluded. */
  datatype Date = Date(year: int, month: int, day: int)

  /** A row of the `category` table, without its key. */
  datatype Category = Category(categoryName: string)

  /** A row of the `task` table, without its key. Every column is non-null,
      which the types say: there is no `None` in a stored row. */
  datatype Task = Task(
    taskName: string,
    taskDescription: string,
    isUrgent: bool,
    dueDate: Date,
    categoryId: Id)

  /** A row together with its key, as a query returns it. */
  datatype Row<T> = Row(id: Id, record: T)

  // ---------------------------------------------------------------------
  // Column constraints
  // ---------------------------------------------------------------------

  /** `category_name` is declared unique. */
  predicate UniqueCategoryNames(cats: map<Id, Category>) {
    forall i, j :: i in cats && j in cats && i != j ==> cats[i].categoryName != cats[j].categoryName
  }

  /** `task_name` is declared unique. */
  predicate UniqueTaskNames(tasks: map<Id, Task>) {
    forall i, j :: i in tasks && j in tasks && i != j ==> tasks[i].taskName != tasks[j].taskName
  }

  /** `category_id` is a foreign key into the `category` table. */
  predicate ForeignKeysHold(cats: map<Id, Category>, tasks: map<Id, Task>) {
    forall t :: t in tasks ==> tasks[t].categoryId in cats
  }

  /** Every key was handed out by a sequence that starts at 1 and whose next
      value is `next`. */
  predicate KeysBelow<T>(table: map<Id, T>, next: Id) {
    forall id :: id in table ==> 1 <= id < next
  }

  /** All constraints of the schema on a pair of tables. */
  predicate SchemaHolds(cats: map<Id, Category>, tasks: map<Id, Task>) {
    UniqueCategoryNames(cats) && UniqueTaskNames(tasks) && ForeignKeysHold(cats, tasks)
  }

  // ---------------------------------------------------------------------
  // What the database checks at commit
  // ---------------------------------------------------------------------

  /** Writing category `c` under key `id` (an insert when `id` is new, an
      update otherwise) clashes with no other category's name. */
  predicate CategoryWriteOk(cats: map<Id, Category>, id: Id, c: Category) {
    forall j :: j in cats && j != id ==> cats[j].categoryName != c.categoryName
  }

  /** Writing task `t` under key `id` names an existing category and clashes
      with no other task's name. */
  predicate TaskWriteOk(cats: map<Id, Category>, tasks: map<Id, Task>, id: Id, t: Task) {
    && t.categoryId in cats
    && forall j :: j in tasks && j != id ==> tasks[j].taskName != t.taskName
  }

  /** The check on a category write accepts exactly the writes after which
      the schema still holds. */
  lemma CategoryWriteOkIffSchema(cats: map<Id, Category>, tasks: map<Id, Task>, id: Id, c: Category)
    requires SchemaHolds(cats, tasks)
    ensures CategoryWriteOk(cats, id, c) <==> SchemaHolds(cats[id := c], tasks)
  {
    var after := cats[id := c];
    if !CategoryWriteOk(cats, id, c) {
      var j :| j in cats && j != id && cats[j].categoryName == c.categoryName;
      assert after[j].categoryName == after[id].categoryName;
    }
  }

  /** The check on a task write accepts exactly the writes after which the
      schema still holds. */
  lemma TaskWriteOkIffSchema(cats: map<Id, Category>, tasks: map<Id, Task>, id: Id, t: Task)
    requires SchemaHolds(cats, tasks)
    ensures TaskWriteOk(cats, tasks, id, t) <==> SchemaHolds(cats, tasks[id := t])
  {
    var after := tasks[id := t];
    if t.categoryId !in cats {
      assert after[id].categoryId !in cats;
    } else if !TaskWriteOk(cats, tasks, id, t) {
      var j :| j in tasks && j != id && tasks[j].taskName == t.taskName;
      assert after[j].taskName == after[id].taskName;
    }
  }

  // ---------------------------------------------------------------------
  // Cascade on delete
  // ---------------------------------------------------------------------

  /** The tasks left once category `c` is deleted with its dependent tasks. */
  function Cascade(tasks: map<Id, Task>, c: Id): (kept: map<Id, Task>)
    ensures forall t :: t in kept <==> t in tasks && tasks[t].categoryId != c
    ensures forall t :: t in kept ==> kept[t] == tasks[t]
  {
    map t | t in tasks && tasks[t].categoryId != c :: tasks[t]
  }

  /** Deleting a category together with its tasks keeps every constraint. */
  lemma CascadeKeepsSchema(cats: map<Id, Category>, tasks: map<Id, Task>, c: Id)
    requires SchemaHolds(cats, tasks)
    ensures SchemaHolds(cats - {c}, Cascade(tasks, c))
  {
  }

  /** Deleting a category that still has a task, without the cascade, would
      leave that task pointing at nothing. */
  lemma DeleteWithoutCascadeOrphans(cats: map<Id, Category>, tasks: map<Id, Task>, c: Id, t: Id)
    requires t in tasks && tasks[t].categoryId == c
    ensures !ForeignKeysHold(cats - {c}, tasks)
  {
  }

  // ---------------------------------------------------------------------
  // __repr__
  // ---------------------------------------------------------------------

  /** `Category.__repr__`: the category's name. */
  function CategoryRepr(c: Category): (s: string) {
    c.categoryName
  }

  /** Within one table that keeps the unique constraint, the representation
      tells the categories apart. */
  lemma CategoryReprIdentifies(cats: map<Id, Category>, i: Id, j: Id)
    requires UniqueCategoryNames(cats)
    requires i in cats && j in cats
    ensures CategoryRepr(cats[i]) == CategoryRepr(cats[j]) <==> i == j
  {
  }

  /** Python's `str` of a boolean. */
  function BoolRepr(b: bool): (s: string) {
    if b then "True" else "False"
  }

  const TASK_SEP := " - Task: "
  const URGENT_SEP := " | Urgent: "

  /** `Task.__repr__`: `#<id> - Task: <name> | Urgent: <True|False>`. */
  function TaskRepr(row: Row<Task>): (s: string) {
    "#" + IntToString(row.id) + TASK_SEP + row.record.taskName + URGENT_SEP + BoolRepr(row.record.isUrgent)
  }

  /** What a task's representation shows of it. */
  datatype TaskSummary = TaskSummary(id: Id, taskName: string, isUrgent: bool)

  predicate HasSuffix(s: string, x: string) {
    |x| <= |s| && s[|s| - |x|..] == x
  }

  /** Splits `<name> | Urgent: <True|False>` into the name and the flag. */
  function SplitUrgency(tail: string): (r: Option<(string, bool)>) {
    if HasSuffix(tail, URGENT_SEP + "True") then
      Some((tail[..|tail| - |URGENT_SEP + "True"|], true))
    else if HasSuffix(tail, URGENT_SEP + "False") then
      Some((tail[..|tail| - |URGENT_SEP + "False"|], false))
    else None
  }

  /** Reads a task representation back: the key up to the first separator,
      the urgency flag from the end, and the name in between. */
  function ParseTaskRepr(s: string): (r: Option<TaskSummary>) {
    if |s| == 0 || s[0] != '#' then None else ParseKeyed(s[1..])
  }

  /** Reads `<id> - Task: <name> | Urgent: <flag>`. */
  function ParseKeyed(body: string): (r: Option<TaskSummary>) {
    var k := IntSpan(body);
    var rest := body[k..];
    match ParseInt(body[..k])
    case None => None
    case Some(id) =>
      if |rest| < |TASK_SEP| || rest[..|TASK_SEP|] != TASK_SEP then None
      else
        match SplitUrgency(rest[|TASK_SEP|..])
        case None => None
        case Some((name, urgent)) => Some(TaskSummary(id, name, urgent))
  }

  /** A string that differs from `x` at one of its last `|x|` places does not
      end with `x`. */
  lemma NotSuffix(s: string, x: string, i: nat)
    requires i < |x| <= |s| && s[|s| - |x| + i] != x[i]
    ensures !HasSuffix(s, x)
  {
    var t := s[|s| - |x|..];
    assert t[i] != x[i];
  }

  /** `a + b` ends with `b`, and what precedes it is `a`. */
  lemma ConcatSuffix(a: string, b: string)
    ensures HasSuffix(a + b, b) && (a + b)[..|a|] == a
  {
    assert (a + b)[|a|..] == b;
  }

  lemma SplitUrgencyRoundTrip(name: string, urgent: bool)
    ensures SplitUrgency(name + URGENT_SEP + BoolRepr(urgent)) == Some((name, urgent))
  {
    var flag := URGENT_SEP + BoolRepr(urgent);
    var tail := name + flag;
    assert name + URGENT_SEP + BoolRepr(urgent) == tail;
    ConcatSuffix(name, flag);
    if !urgent {
      assert tail[|tail| - 4] == flag[|flag| - 4] == 'a';
      NotSuffix(tail, URGENT_SEP + "True", 11);
    }
  }

  lemma ParseKeyedRoundTrip(id: Id, name: string, urgent: bool)
    ensures ParseKeyed(IntToString(id) + TASK_SEP + name + URGENT_SEP + BoolRepr(urgent))
         == Some(TaskSummary(id, name, urgent))
  {
    var digits := IntToString(id);
    var tail := name + URGENT_SEP + BoolRepr(urgent);
    var after := TASK_SEP + tail;
    var body := IntToString(id) + TASK_SEP + name + URGENT_SEP + BoolRepr(urgent);
    assert body == digits + after;
    IntSpanOfIntToString(id, after);
    assert body[..IntSpan(body)] == digits;
    ParseIntToString(id);
    var rest := body[IntSpan(body)..];
    assert rest == after;
    assert rest[..|TASK_SEP|] == TASK_SEP;
    assert rest[|TASK_SEP|..] == tail;
    SplitUrgencyRoundTrip(name, urgent);
  }

  /** A task's representation determines its key, name and urgency. */
  lemma ParseTaskReprRoundTrip(row: Row<Task>)
    ensures ParseTaskRepr(TaskRepr(row)) == Some(TaskSummary(row.id, row.record.taskName, row.record.isUrgent))
  {
    var s := TaskRepr(row);
    assert s[1..] == IntToString(row.id) + TASK_SEP + row.record.taskName + URGENT_SEP + BoolRepr(row.record.isUrgent);
    ParseKeyedRoundTrip(row.id, row.record.taskName, row.record.isUrgent);
  }

  /** Tasks with different keys have different representations. */
  lemma TaskReprIdentifies(a: Row<Task>, b: Row<Task>)
    requires a.id != b.id
    ensures TaskRepr(a) != TaskRepr(b)
  {
    ParseTaskReprRoundTrip(a);
    ParseTaskReprRoundTrip(b);
  }
}
