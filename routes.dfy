/** The request handlers of the task manager, as methods on the store that
    holds the two tables.

    A handler receives the request method and, for a POST, the submitted form;
    it answers with an `Outcome`: a redirect to a view, a rendered page, a
    not-found response (from `get_or_404`) or a constraint violation (a
    commit the database refused). A refused commit is undone as a whole, so
    the store is then exactly as before. */
module Routes {

  import opened Options
  import opened Text
  import opened Models
  import opened Queries

  /** What arrives with a request: a GET, or a POST with its form. */
  datatype Request<F> = Get | Post(form: F)

  /** The fields of the category form; `None` is a field the submission left
      out (`request.form.get` then yields `None`). */
  datatype CategoryForm = CategoryForm(categoryName: Option<string>)

  /** The fields of the task form. The due date and the category key arrive
      already converted from their text. */
  datatype TaskForm = TaskForm(
    taskName: Option<string>,
    taskDescription: Option<string>,
    isUrgent: Option<string>,
    dueDate: Option<Date>,
    categoryId: Option<Id>)

  /** The views a handler renders or redirects to. */
  datatype Page = TasksPage | CategoriesPage | AddCategoryPage | EditCategoryPage | AddTaskPage | EditTaskPage

  datatype Outcome = Redirect(to: Page) | Render(page: Page) | NotFound | ConstraintViolation

  /** The urgency checkbox: Python's truth value of the submitted field, so
      an absent field and an empty string both read as not urgent. */
  function UrgentFlag(field: Option<string>): (urgent: bool)
    ensures urgent <==> field.Some? && field.value != ""
  {
    match field
    case None => false
    case Some(s) => |s| > 0
  }

  /** Every field that fills a non-null column was submitted. */
  predicate Complete(f: TaskForm) {
    f.taskName.Some? && f.taskDescription.Some? && f.dueDate.Some? && f.categoryId.Some?
  }

  /** Task `t` holds exactly the values of form `f`. */
  ghost predicate Describes(t: Task, f: TaskForm)
    requires Complete(f)
  {
    && t.taskName == f.taskName.value
    && t.taskDescription == f.taskDescription.value
    && t.isUrgent == UrgentFlag(f.isUrgent)
    && t.dueDate == f.dueDate.value
    && t.categoryId == f.categoryId.value
  }

  /** The task row a form submission writes; `None` when a non-null column
      would be null, which the database refuses. */
  function TaskFromForm(f: TaskForm): (t: Option<Task>)
    ensures t.Some? <==> Complete(f)
    ensures t.Some? ==> Describes(t.value, f)
  {
    if Complete(f) then
      Some(Task(f.taskName.value, f.taskDescription.value, UrgentFlag(f.isUrgent), f.dueDate.value, f.categoryId.value))
    else None
  }

  class Store {
    var categories: map<Id, Category>
    var tasks: map<Id, Task>
    /** The next values of the two primary-key sequences. */
    var nextCategoryId: Id
    var nextTaskId: Id

    /** The schema's constraints, and every key handed out by its sequence,
        which starts at 1 and has not yet reached its next value. */
    ghost predicate Valid()
      reads this
    {
      && SchemaHolds(categories, tasks)
      && 1 <= nextCategoryId && 1 <= nextTaskId
      && KeysBelow(categories, nextCategoryId)
      && KeysBelow(tasks, nextTaskId)
    }

    /** An empty database whose sequences start at 1. */
    constructor ()
      ensures Valid()
      ensures categories == map[] && tasks == map[]
      ensures nextCategoryId == 1 && nextTaskId == 1
    {
      categories, tasks := map[], map[];
      nextCategoryId, nextTaskId := 1, 1;
    }

    /** `home`: every task, in ascending key order. */
    method Home() returns (o: Outcome, rows: seq<Row<Task>>)
      ensures o == Render(TasksPage)
      ensures IdsAscending(rows) && Lists(rows, tasks)
    {
      rows := OrderedById(tasks);
      o := Render(TasksPage);
    }

    /** `categories`: every category, in ascending name order. */
    method Categories() returns (o: Outcome, rows: seq<Row<Category>>)
      requires Valid()
      ensures o == Render(CategoriesPage)
      ensures Lists(rows, categories)
      ensures forall i, j :: 0 <= i < j < |rows| ==> StrLt(rows[i].record.categoryName, rows[j].record.categoryName)
    {
      rows := OrderedByName(categories);
      NamesStrictlyAscending(rows, categories);
      o := Render(CategoriesPage);
    }

    /** `add_category`: a GET shows the form; a POST inserts a category under
        a fresh key and redirects to the category list. */
    method AddCategory(req: Request<CategoryForm>) returns (o: Outcome)
      requires Valid()
      modifies this
      ensures Valid()
      ensures req.Get? ==> o == Render(AddCategoryPage) && unchanged(this)
      ensures req.Post? ==>
        var name := req.form.categoryName;
        if name.Some? && (forall j :: j in old(categories) ==> old(categories)[j].categoryName != name.value) then
          && o == Redirect(CategoriesPage)
          && old(nextCategoryId) !in old(categories)
          && categories == old(categories)[old(nextCategoryId) := Category(name.value)]
          && nextCategoryId > old(nextCategoryId)
          && tasks == old(tasks) && nextTaskId == old(nextTaskId)
        else
          o == ConstraintViolation && unchanged(this)
    {
      if req.Get? {
        return Render(AddCategoryPage);
      }
      var name := req.form.categoryName;
      assert nextCategoryId !in categories;
      if name.None? || !CategoryWriteOk(categories, nextCategoryId, Category(name.value)) {
        return ConstraintViolation;
      }
      CategoryWriteOkIffSchema(categories, tasks, nextCategoryId, Category(name.value));
      categories := categories[nextCategoryId := Category(name.value)];
      nextCategoryId := nextCategoryId + 1;
      o := Redirect(CategoriesPage);
    }

    /** `edit_category`: an unknown key is not found; a GET shows the form; a
        POST renames the category and redirects to the category list. */
    method EditCategory(id: Id, req: Request<CategoryForm>) returns (o: Outcome)
      requires Valid()
      modifies this
      ensures Valid()
      ensures id !in old(categories) ==> o == NotFound && unchanged(this)
      ensures id in old(categories) && req.Get? ==> o == Render(EditCategoryPage) && unchanged(this)
      ensures id in old(categories) && req.Post? ==>
        var name := req.form.categoryName;
        if name.Some? && CategoryWriteOk(old(categories), id, Category(name.value)) then
          && o == Redirect(CategoriesPage)
          && categories == old(categories)[id := Category(name.value)]
          && categories.Keys == old(categories).Keys
          && tasks == old(tasks)
          && nextCategoryId == old(nextCategoryId) && nextTaskId == old(nextTaskId)
        else
          o == ConstraintViolation && unchanged(this)
    {
      if id !in categories {
        return NotFound;
      }
      if req.Get? {
        return Render(EditCategoryPage);
      }
      var name := req.form.categoryName;
      if name.None? || !CategoryWriteOk(categories, id, Category(name.value)) {
        return ConstraintViolation;
      }
      CategoryWriteOkIffSchema(categories, tasks, id, Category(name.value));
      categories := categories[id := Category(name.value)];
      o := Redirect(CategoriesPage);
    }

    /** `delete_category`: an unknown key is not found; otherwise the category
        goes, with every task that belongs to it, and the category list is
        shown. */
    method DeleteCategory(id: Id) returns (o: Outcome)
      requires Valid()
      modifies this
      ensures Valid()
      ensures id !in old(categories) ==> o == NotFound && unchanged(this)
      ensures id in old(categories) ==>
        && o == Redirect(CategoriesPage)
        && categories == old(categories) - {id}
        && tasks == Cascade(old(tasks), id)
        && nextCategoryId == old(nextCategoryId) && nextTaskId == old(nextTaskId)
    {
      if id !in categories {
        return NotFound;
      }
      CascadeKeepsSchema(categories, tasks, id);
      categories, tasks := categories - {id}, Cascade(tasks, id);
      o := Redirect(CategoriesPage);
    }

    /** `add_task`: lists the categories for the form; a GET shows the form,
        a POST inserts a task under a fresh key and redirects home. */
    method AddTask(req: Request<TaskForm>) returns (o: Outcome, choices: seq<Row<Category>>)
      requires Valid()
      modifies this
      ensures Valid()
      ensures NamesAscending(choices) && Lists(choices, old(categories))
      ensures req.Get? ==> o == Render(AddTaskPage) && unchanged(this)
      ensures req.Post? && !Complete(req.form) ==> o == ConstraintViolation && unchanged(this)
      ensures req.Post? && Complete(req.form) ==>
        var t := TaskFromForm(req.form).value;
        if TaskWriteOk(old(categories), old(tasks), old(nextTaskId), t) then
          && o == Redirect(TasksPage)
          && old(nextTaskId) !in old(tasks)
          && tasks == old(tasks)[old(nextTaskId) := t]
          && Describes(tasks[old(nextTaskId)], req.form)
          && nextTaskId > old(nextTaskId)
          && categories == old(categories) && nextCategoryId == old(nextCategoryId)
        else
          o == ConstraintViolation && unchanged(this)
    {
      choices := OrderedByName(categories);
      if req.Get? {
        return Render(AddTaskPage), choices;
      }
      var row := TaskFromForm(req.form);
      assert nextTaskId !in tasks;
      if row.None? || !TaskWriteOk(categories, tasks, nextTaskId, row.value) {
        return ConstraintViolation, choices;
      }
      TaskWriteOkIffSchema(categories, tasks, nextTaskId, row.value);
      tasks := tasks[nextTaskId := row.value];
      nextTaskId := nextTaskId + 1;
      o := Redirect(TasksPage);
    }

    /** `edit_task`: an unknown key is not found; otherwise the categories are
        listed for the form, a POST overwrites all five fields with the
        submitted values, and the edit page is shown again (no redirect). */
    method EditTask(id: Id, req: Request<TaskForm>) returns (o: Outcome, choices: seq<Row<Category>>)
      requires Valid()
      modifies this
      ensures Valid()
      ensures id !in old(tasks) ==> o == NotFound && unchanged(this)
      ensures id in old(tasks) ==> NamesAscending(choices) && Lists(choices, old(categories))
      ensures id in old(tasks) && req.Get? ==> o == Render(EditTaskPage) && unchanged(this)
      ensures id in old(tasks) && req.Post? && !Complete(req.form) ==> o == ConstraintViolation && unchanged(this)
      ensures id in old(tasks) && req.Post? && Complete(req.form) ==>
        var t := TaskFromForm(req.form).value;
        if TaskWriteOk(old(categories), old(tasks), id, t) then
          && o == Render(EditTaskPage)
          && tasks == old(tasks)[id := t]
          && tasks.Keys == old(tasks).Keys
          && Describes(tasks[id], req.form)
          && categories == old(categories)
          && nextCategoryId == old(nextCategoryId) && nextTaskId == old(nextTaskId)
        else
          o == ConstraintViolation && unchanged(this)
    {
      if id !in tasks {
        return NotFound, [];
      }
      choices := OrderedByName(categories);
      if req.Get? {
        return Render(EditTaskPage), choices;
      }
      var row := TaskFromForm(req.form);
      if row.None? || !TaskWriteOk(categories, tasks, id, row.value) {
        return ConstraintViolation, choices;
      }
      TaskWriteOkIffSchema(categories, tasks, id, row.value);
      tasks := tasks[id := row.value];
      o := Render(EditTaskPage);
    }

    /** `delete_task`: an unknown key is not found; otherwise only that task
        goes and the home page is shown. */
    method DeleteTask(id: Id) returns (o: Outcome)
      requires Valid()
      modifies this
      ensures Valid()
      ensures id !in old(tasks) ==> o == NotFound && unchanged(this)
      ensures id in old(tasks) ==>
        && o == Redirect(TasksPage)
        && tasks == old(tasks) - {id}
        && categories == old(categories)
        && nextCategoryId == old(nextCategoryId) && nextTaskId == old(nextTaskId)
    {
      if id !in tasks {
        return NotFound;
      }
      tasks := tasks - {id};
      o := Redirect(TasksPage);
    }
  }

  /** A session against a fresh database: create category "Work", a task in
      it with the urgency box left out, a second "Work", then delete the
      category and ask for the task's edit page. */
  method WorkScenario() returns (created: Outcome, duplicate: Outcome, deleted: Outcome, editAfter: Outcome, urgent: bool)
    ensures created == Redirect(TasksPage)
    ensures duplicate == ConstraintViolation
    ensures deleted == Redirect(CategoriesPage)
    ensures editAfter == NotFound
    ensures !urgent
  {
    var store := new Store();
    var o := store.AddCategory(Post(CategoryForm(Some("Work"))));
    assert store.categories == map[1 := Category("Work")];
    var form := TaskForm(Some("Write report"), Some("Q3 summary"), None, Some(Date(2024, 6, 1)), Some(1));
    var choices;
    created, choices := store.AddTask(Post(form));
    assert store.tasks == map[1 := TaskFromForm(form).value];
    urgent := store.tasks[1].isUrgent;
    duplicate := store.AddCategory(Post(CategoryForm(Some("Work"))));
    deleted := store.DeleteCategory(1);
    assert 1 !in store.tasks;
    editAfter, choices := store.EditTask(1, Get);
  }
}
