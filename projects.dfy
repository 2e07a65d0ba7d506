/**
 * The project handling of script.js: the list of projects and one stored list of
 * entries per project (both kept in the browser's storage), the project the page
 * works on, the project picked in the selector, and the rows of the entry table.
 * `saveMemos` writes the TABLE back to storage, so the table is part of the state.
 */
module Projects {
  import opened JsBuiltins
  import opened Ledger

  /** The storage key used while no project has been chosen. */
  const DefaultProject: string := "default"

  datatype CreateOutcome = Created | AlreadyExists | BlankName

  /** The values of the four inputs of the entry form: memo, date, amount and payer. */
  datatype Form = Form(text: string, date: string, amount: string, payer: string)

  /** The form after a row's edit button, as written. `addMemoToPage`'s parameters `memoDate`,
      `memoAmount` and `memoPayer` shadow the form inputs of the same names, so the handler's
      first three assignments set a property of a string or a number, which is lost; only the
      memo input receives the row's text. When the row was built from a null amount the third
      assignment throws, before the memo input is set and before the row is removed (None). */
  function EditedForm(row: Row, form: Form): Option<Form> {
    if row.fromNull then None else Some(form.(text := row.text))
  }

  /** The entries stored under a key; a missing key reads as no entry (`|| []`). */
  function BucketOf(buckets: map<string, seq<Memo>>, p: string): seq<Memo> {
    if p in buckets then buckets[p] else []
  }

  /** The project `loadProjectList` settles on: the first listed one, or "default" with none. */
  function FirstOrDefault(projects: seq<string>): string {
    if projects != [] then projects[0] else DefaultProject
  }

  /** What the selector shows after `loadProjectList`: its first option, or nothing. */
  function FirstOption(projects: seq<string>): string {
    if projects != [] then projects[0] else ""
  }

  /** The table the delete handler leaves behind: cleared, then refilled from storage
      only when some project remains. */
  function RowsAfterDelete(remaining: seq<string>, buckets: map<string, seq<Memo>>): seq<Row> {
    if remaining != [] then RenderAll(BucketOf(buckets, remaining[0])) else []
  }

  class ProjectStore {
    /** The stored project list, in creation order. */
    var projectList: seq<string>
    /** The stored entries, one list per project name. */
    var buckets: map<string, seq<Memo>>
    /** The stored name of the project last loaded or picked. */
    var lastProject: Option<string>
    /** `currentProject`: the key entries are read from and saved under. */
    var current: string
    /** The value of the project selector. */
    var selected: string
    /** The rows of the entry table. */
    var rows: seq<Row>

    /** The entries stored for a project. */
    function Bucket(p: string): seq<Memo>
      reads this
    {
      BucketOf(buckets, p)
    }

    /** The table shows exactly the entries stored for the current project. */
    predicate Shown()
      reads this
    {
      ReadAll(rows) == Bucket(current)
    }

    /** The page opening on the given storage: list the projects, then reopen the last
        project if it is still listed, or else show "default"'s entries when that key is stored. */
    constructor (storedList: seq<string>, storedBuckets: map<string, seq<Memo>>, storedLast: Option<string>)
      ensures projectList == storedList && buckets == storedBuckets && lastProject == storedLast
      ensures storedLast.Some? && storedLast.value in storedList ==>
                selected == current == storedLast.value
                && rows == RenderAll(BucketOf(storedBuckets, storedLast.value)) && Shown()
      ensures !(storedLast.Some? && storedLast.value in storedList) ==>
                selected == FirstOption(storedList) && current == FirstOrDefault(storedList)
                && rows == (if current in storedBuckets then RenderAll(storedBuckets[current]) else [])
    {
      projectList, buckets, lastProject := storedList, storedBuckets, storedLast;
      var shown: seq<Row> := [];
      var picked := FirstOption(storedList);
      var project := FirstOrDefault(storedList);
      if storedLast.Some? && storedLast.value in storedList {
        picked := storedLast.value;
        project := storedLast.value;
        shown := RenderAll(BucketOf(storedBuckets, project));
        TableRoundTrip(BucketOf(storedBuckets, project));
      } else if project in storedBuckets {
        shown := RenderAll(storedBuckets[project]);
      }
      selected, current, rows := picked, project, shown;
    }

    /** `loadProjectList`: the selector is refilled with the stored list and its first
        option becomes the current project, or "default" when the list is empty. */
    method LoadProjectList()
      modifies this
      ensures selected == FirstOption(projectList) && current == FirstOrDefault(projectList)
      ensures projectList == old(projectList) && buckets == old(buckets)
      ensures lastProject == old(lastProject) && rows == old(rows)
    {
      selected := FirstOption(projectList);
      current := FirstOrDefault(projectList);
    }

    /** The selector's change event: the picked project is remembered in storage. */
    method Pick(p: string)
      requires p in projectList
      modifies this
      ensures selected == p && lastProject == Some(p)
      ensures projectList == old(projectList) && buckets == old(buckets)
      ensures current == old(current) && rows == old(rows)
    {
      selected := p;
      lastProject := Some(p);
    }

    /** `saveMemos`: the entries read back from the table replace what is stored under the
        current project. */
    method SaveMemos()
      modifies this
      ensures buckets == old(buckets)[current := ReadAll(rows)]
      ensures Shown()
      ensures projectList == old(projectList) && lastProject == old(lastProject)
      ensures current == old(current) && selected == old(selected) && rows == old(rows)
    {
      var memos := ReadTable(rows);
      buckets := buckets[current := memos];
    }

    /** The load button: the selected project becomes current, its stored entries fill the
        table, and it is remembered as the last project. */
    method LoadProject()
      modifies this
      ensures current == old(selected) && lastProject == Some(current)
      ensures rows == RenderAll(Bucket(current))
      ensures Shown()
      ensures projectList == old(projectList) && buckets == old(buckets) && selected == old(selected)
    {
      current := selected;
      rows := RenderAll(BucketOf(buckets, current));
      TableRoundTrip(BucketOf(buckets, current));
      lastProject := Some(current);
    }

    /** The add button: memo and payer are trimmed, an empty date becomes today's; with an
        amount and a payer the row is appended and the table saved, otherwise nothing changes. */
    method AddMemo(textInput: string, dateInput: string, amountInput: string, payerInput: string, today: string)
      returns (added: bool)
      modifies this
      ensures added <==> amountInput != "" && Trim(payerInput) != ""
      ensures added ==>
                rows == old(rows) + [MemoRow(Trim(textInput), if dateInput == "" then today else dateInput, amountInput, Trim(payerInput))]
                && buckets == old(buckets)[current := ReadAll(rows)]
                && Shown()
      ensures added && old(Shown()) && Yen !in amountInput ==>
                Bucket(current)
                == old(Bucket(current)) + [Memo(if dateInput == "" then today else dateInput, Trim(textInput), ParseInt(amountInput), Trim(payerInput))]
      ensures !added ==> rows == old(rows) && buckets == old(buckets)
      ensures projectList == old(projectList) && lastProject == old(lastProject)
      ensures current == old(current) && selected == old(selected)
    {
      var memoText := Trim(textInput);
      var payerValue := Trim(payerInput);
      var dateValue := dateInput;
      if dateValue == "" {
        dateValue := today;
      }
      if amountInput != "" && payerValue != "" {
        if Shown() && Yen !in amountInput {
          AddAppendsOneEntry(rows, Bucket(current), memoText, dateValue, amountInput, payerValue);
        }
        rows := rows + [MemoRow(memoText, dateValue, amountInput, payerValue)];
        SaveMemos();
        added := true;
      } else {
        added := false;
      }
    }

    /** A row's delete button: the row goes and the table is saved. */
    method DeleteMemo(i: nat)
      requires i < |rows|
      modifies this
      ensures rows == RemoveAt(old(rows), i)
      ensures buckets == old(buckets)[current := ReadAll(rows)]
      ensures Shown()
      ensures old(Shown()) ==> Bucket(current) == RemoveAt(old(Bucket(current)), i)
      ensures projectList == old(projectList) && lastProject == old(lastProject)
      ensures current == old(current) && selected == old(selected)
    {
      if Shown() {
        DeleteRemovesOneEntry(rows, Bucket(current), i);
      }
      rows := rows[..i] + rows[i + 1..];
      SaveMemos();
    }

    /** A row's edit button, as written: only the memo input receives the row's text, then the
        row goes and the table is saved. A row built from a null amount throws first, and
        nothing changes. */
    method EditMemo(i: nat, form: Form) returns (after: Form)
      requires i < |rows|
      modifies this
      ensures old(rows)[i].fromNull ==>
                EditedForm(old(rows)[i], form) == None
                && after == form && rows == old(rows) && buckets == old(buckets)
      ensures !old(rows)[i].fromNull ==>
                EditedForm(old(rows)[i], form) == Some(after)
                && after.date == form.date && after.amount == form.amount && after.payer == form.payer
                && rows == RemoveAt(old(rows), i)
                && buckets == old(buckets)[current := ReadAll(rows)]
                && Shown()
                && (old(Shown()) ==> Bucket(current) == RemoveAt(old(Bucket(current)), i))
      ensures projectList == old(projectList) && lastProject == old(lastProject)
      ensures current == old(current) && selected == old(selected)
    {
      if rows[i].fromNull {
        after := form;
        return;
      }
      after := form.(text := rows[i].text);
      DeleteMemo(i);
    }

    /** A row's edit button with the inputs no longer shadowed: all four cells go back into the
        form (the amount through `parseInt`), then the row goes and the table is saved. With the
        table in step with storage, the form receives exactly the stored entry. */
    method EditMemoFillingForm(i: nat) returns (form: Memo)
      requires i < |rows|
      modifies this
      ensures form == ReadRow(old(rows)[i])
      ensures old(Shown()) ==> form == old(Bucket(current))[i]
      ensures rows == RemoveAt(old(rows), i)
      ensures buckets == old(buckets)[current := ReadAll(rows)]
      ensures Shown()
      ensures old(Shown()) ==> Bucket(current) == RemoveAt(old(Bucket(current)), i)
      ensures projectList == old(projectList) && lastProject == old(lastProject)
      ensures current == old(current) && selected == old(selected)
    {
      form := ReadRow(rows[i]);
      DeleteMemo(i);
    }

    /** The create button: a trimmed, non-blank name not yet listed is appended, becomes the
        current and selected project, and the table is cleared. Stored entries are untouched. */
    method CreateProject(nameInput: string) returns (outcome: CreateOutcome)
      modifies this
      ensures outcome == BlankName <==> Trim(nameInput) == ""
      ensures outcome == AlreadyExists <==> Trim(nameInput) != "" && Trim(nameInput) in old(projectList)
      ensures outcome == Created ==>
                projectList == old(projectList) + [Trim(nameInput)]
                && current == selected == Trim(nameInput) && rows == []
      ensures outcome != Created ==>
                projectList == old(projectList) && current == old(current)
                && selected == old(selected) && rows == old(rows)
      ensures NoDup(old(projectList)) ==> NoDup(projectList)
      ensures buckets == old(buckets) && lastProject == old(lastProject)
    {
      var projectName := Trim(nameInput);
      if projectName == "" {
        return BlankName;
      }
      if projectName in projectList {
        return AlreadyExists;
      }
      projectList := projectList + [projectName];
      LoadProjectList();
      selected := projectName;
      current := projectName;
      rows := [];
      outcome := Created;
    }

    /** The create button with the table reloaded from what is already stored under the new
        name (the key "default" can hold entries before any project exists): afterwards the
        table shows exactly what is stored for the new current project. */
    method CreateProjectAndReload(nameInput: string) returns (outcome: CreateOutcome)
      modifies this
      ensures outcome == BlankName <==> Trim(nameInput) == ""
      ensures outcome == AlreadyExists <==> Trim(nameInput) != "" && Trim(nameInput) in old(projectList)
      ensures outcome == Created ==>
                projectList == old(projectList) + [Trim(nameInput)]
                && current == selected == Trim(nameInput) && Shown()
      ensures outcome != Created ==>
                projectList == old(projectList) && current == old(current)
                && selected == old(selected) && rows == old(rows)
      ensures NoDup(old(projectList)) ==> NoDup(projectList)
      ensures buckets == old(buckets) && lastProject == old(lastProject)
    {
      outcome := CreateProject(nameInput);
      if outcome == Created {
        rows := RenderAll(Bucket(current));
        TableRoundTrip(Bucket(current));
      }
    }

    /** The delete button as written: after confirmation the selected project leaves the list
        and its entries leave storage; the table is cleared, and it is refilled from the first
        remaining project only when one remains. With none left, the current project is
        "default" but the table stays empty whatever "default" holds. */
    method DeleteProject(confirmed: bool)
      modifies this
      ensures !confirmed ==>
                projectList == old(projectList) && buckets == old(buckets)
                && current == old(current) && selected == old(selected) && rows == old(rows)
      ensures confirmed ==>
                projectList == Without(old(projectList), old(selected))
                && buckets == old(buckets) - {old(selected)}
                && current == FirstOrDefault(projectList) && selected == FirstOption(projectList)
                && rows == RowsAfterDelete(projectList, buckets)
      ensures confirmed && projectList != [] ==> current in projectList && current != old(selected) && Shown()
      ensures confirmed && projectList == [] ==> current == DefaultProject
      ensures NoDup(old(projectList)) ==> NoDup(projectList)
      ensures lastProject == old(lastProject)
    {
      if !confirmed {
        return;
      }
      var target := selected;
      if NoDup(projectList) {
        WithoutKeepsNoDup(projectList, target);
      }
      projectList := Without(projectList, target);
      buckets := buckets - {target};
      LoadProjectList();
      rows := [];
      if |projectList| > 0 {
        current := projectList[0];
        selected := current;
        rows := RenderAll(BucketOf(buckets, current));
        TableRoundTrip(BucketOf(buckets, current));
      }
    }

    /** The delete button with the table always reloaded from the project it falls back to:
        afterwards the table shows exactly what is stored for the current project, "default" included. */
    method DeleteProjectAndReload(confirmed: bool)
      modifies this
      ensures !confirmed ==>
                projectList == old(projectList) && buckets == old(buckets)
                && current == old(current) && selected == old(selected) && rows == old(rows)
      ensures confirmed ==>
                projectList == Without(old(projectList), old(selected))
                && buckets == old(buckets) - {old(selected)}
                && current == FirstOrDefault(projectList) && selected == FirstOption(projectList)
                && Shown()
      ensures confirmed && projectList != [] ==> current in projectList && current != old(selected)
      ensures confirmed && projectList == [] ==> current == DefaultProject
      ensures NoDup(old(projectList)) ==> NoDup(projectList)
      ensures lastProject == old(lastProject)
    {
      if !confirmed {
        return;
      }
      var target := selected;
      if NoDup(projectList) {
        WithoutKeepsNoDup(projectList, target);
      }
      projectList := Without(projectList, target);
      buckets := buckets - {target};
      LoadProjectList();
      rows := RenderAll(BucketOf(buckets, current));
      TableRoundTrip(BucketOf(buckets, current));
    }
  }

  /** A listed project deleted from the selector is gone from the list, every other project
      keeps its place, and its stored entries are gone. */
  lemma DeleteRemovesOnlyTheTarget(projects: seq<string>, buckets: map<string, seq<Memo>>, i: nat)
    requires NoDup(projects) && i < |projects|
    ensures Without(projects, projects[i]) == RemoveAt(projects, i)
    ensures BucketOf(buckets - {projects[i]}, projects[i]) == []
    ensures forall p :: p != projects[i] ==> BucketOf(buckets - {projects[i]}, p) == BucketOf(buckets, p)
  {
    WithoutRemovesOnePosition(projects, i);
  }

  /** Deleting the last project while "default" holds an entry leaves the table empty
      although the current project is "default" and its entry is still stored. */
  lemma DeletingLastProjectHidesDefault(m: Memo)
    ensures var buckets := map[DefaultProject := [m]];
            && FirstOrDefault([]) == DefaultProject
            && ReadAll(RowsAfterDelete([], buckets)) == []
            && BucketOf(buckets, DefaultProject) == [m]
  {
  }

  /** An entry added after that replaces what "default" held: saving the table stores only
      the new row, and the entry that was hidden is lost. */
  lemma AddAfterDeletingLastProjectLosesEntries(m: Memo, row: Row)
    requires ReadRow(row) != m
    ensures var buckets := map[DefaultProject := [m]];
            var saved := buckets[DefaultProject := ReadAll(RowsAfterDelete([], buckets) + [row])];
            && BucketOf(saved, DefaultProject) == [ReadRow(row)]
            && m !in BucketOf(saved, DefaultProject)
  {
    var buckets := map[DefaultProject := [m]];
    assert RowsAfterDelete([], buckets) + [row] == [row];
  }

  /** With the table in step with storage, adding an entry appends exactly one stored entry,
      read back from the typed amount by `parseInt`. */
  lemma AddAppendsOneEntry(rows: seq<Row>, stored: seq<Memo>, text: string, date: string, amountText: string, payer: string)
    requires ReadAll(rows) == stored
    requires Yen !in amountText
    ensures ReadAll(rows + [MemoRow(text, date, amountText, payer)])
         == stored + [Memo(date, text, ParseInt(amountText), payer)]
  {
    var r := MemoRow(text, date, amountText, payer);
    RemoveFirstOfSuffix(amountText, Yen);
    assert ReadRow(r) == Memo(date, text, ParseInt(amountText), payer);
    assert ReadAll(rows + [r]) == ReadAll(rows) + [ReadRow(r)];
  }

  /** With the table in step with storage, deleting row `i` deletes stored entry `i`. */
  lemma DeleteRemovesOneEntry(rows: seq<Row>, stored: seq<Memo>, i: nat)
    requires ReadAll(rows) == stored && i < |rows|
    ensures ReadAll(RemoveAt(rows, i)) == RemoveAt(stored, i)
  {
    var r, m := RemoveAt(rows, i), RemoveAt(stored, i);
    forall k | 0 <= k < |r|
      ensures ReadAll(r)[k] == m[k]
    {
      var j := if k < i then k else k + 1;
      assert r[k] == rows[j] && m[k] == stored[j];
      assert stored[j] == ReadAll(rows)[j];
    }
  }

  /** As written, editing the row of a stored entry from a blank form brings back only its memo
      text, although the row holds the whole entry; the row of an entry with a null amount cannot
      be edited at all. */
  lemma EditLosesTheEntryFields(m: Memo)
    ensures ReadRow(RenderMemo(m)) == m
    ensures m.amount == None ==> EditedForm(RenderMemo(m), Form("", "", "", "")) == None
    ensures m.amount != None ==> EditedForm(RenderMemo(m), Form("", "", "", "")) == Some(Form(m.text, "", "", ""))
  {
    MemoRoundTrip(m);
  }

  /** As written, entries saved under "default" while no project exists are lost once a project
      named "default" is created and an entry is added: the new project opens on an empty table,
      and saving the table stores only the new entry. */
  method CreateDefaultOverStoredEntries(m: Memo, text: string, date: string, amount: string, payer: string)
    returns (store: ProjectStore)
    requires amount != "" && Yen !in amount && Trim(payer) != "" && date != ""
    ensures store.current == DefaultProject
    ensures store.Bucket(DefaultProject) == [Memo(date, Trim(text), ParseInt(amount), Trim(payer))]
    ensures m != Memo(date, Trim(text), ParseInt(amount), Trim(payer)) ==> m !in store.Bucket(DefaultProject)
  {
    store := new ProjectStore([], map[DefaultProject := [m]], None);
    assert store.projectList == [] && store.current == DefaultProject;
    assert Trim(DefaultProject) == DefaultProject;
    var outcome := store.CreateProject(DefaultProject);
    assert outcome == Created && store.rows == [] && store.current == DefaultProject;
    var entry := Memo(date, Trim(text), ParseInt(amount), Trim(payer));
    AddAppendsOneEntry([], [], Trim(text), date, amount, Trim(payer));
    var added := store.AddMemo(text, date, amount, payer, date);
    assert added && store.rows == [] + [MemoRow(Trim(text), date, amount, Trim(payer))];
    assert store.buckets[DefaultProject] == [entry];
  }
}
