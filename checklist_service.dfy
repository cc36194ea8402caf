/** The checklist of review questions, managed by system administrators. An add refuses a
    question already on the list; an edit only checks that the row exists. */
module ChecklistService {
  import opened Common
  import opened Users
  import opened BaseService

  datatype ChecklistRow = ChecklistRow(id: nat, question: string)

  function ChecklistId(c: ChecklistRow): nat { c.id }

  function FindQuestionById(rows: seq<ChecklistRow>, id: nat): Option<ChecklistRow> {
    Find(rows, (c: ChecklistRow) => c.id == id)
  }

  predicate QuestionsUnique(rows: seq<ChecklistRow>) {
    forall i, j :: 0 <= i < j < |rows| ==> rows[i].question != rows[j].question
  }

  /** `validate_system_user` of this service: the user must exist and have the 'SYSTEM' role. */
  function ValidateSystemUser(users: seq<UserRow>, currentUserId: nat): (r: Outcome)
    ensures r == Pass <==> exists i :: 0 <= i < |users| && users[i].id == currentUserId
                                       && FindById(users, currentUserId).value.systemRole == "SYSTEM"
    ensures FindById(users, currentUserId).None? ==> r == Fail(ValueError)
    ensures FindById(users, currentUserId).Some? && FindById(users, currentUserId).value.systemRole != "SYSTEM"
            ==> r == Fail(PermissionError)
  {
    match FindById(users, currentUserId)
    case None => Fail(ValueError)
    case Some(user) => if user.systemRole != "SYSTEM" then Fail(PermissionError) else Pass
  }

  /** It agrees with the shared administrator check, error for error. */
  lemma SameAsAdminCheck(users: seq<UserRow>, currentUserId: nat)
    ensures ValidateSystemUser(users, currentUserId) == Pass <==> CheckSystemAdmin(users, currentUserId).Success?
    ensures ValidateSystemUser(users, currentUserId).Fail?
            ==> ValidateSystemUser(users, currentUserId).error == CheckSystemAdmin(users, currentUserId).error
  {
  }

  /** The checks of `add_question`: the administrator, then a question not yet on the list. */
  function AddCheck(users: seq<UserRow>, rows: seq<ChecklistRow>, currentUserId: nat, question: string): (r: Outcome)
    ensures r == Pass <==> ValidateSystemUser(users, currentUserId) == Pass
                           && forall i :: 0 <= i < |rows| ==> rows[i].question != question
    ensures ValidateSystemUser(users, currentUserId).Fail? ==> r == ValidateSystemUser(users, currentUserId)
    ensures ValidateSystemUser(users, currentUserId) == Pass && r.Fail? ==> r.error == ValueError
  {
    var v := ValidateSystemUser(users, currentUserId);
    if v.Fail? then v
    else if Find(rows, (c: ChecklistRow) => c.question == question).Some? then Fail(ValueError)
    else Pass
  }

  /** An add that passes its checks keeps the questions unique. */
  lemma AddKeepsUnique(users: seq<UserRow>, rows: seq<ChecklistRow>, currentUserId: nat, question: string, id: nat)
    requires QuestionsUnique(rows)
    requires AddCheck(users, rows, currentUserId, question) == Pass
    ensures QuestionsUnique(rows + [ChecklistRow(id, question)])
  {
    var all := rows + [ChecklistRow(id, question)];
    forall i, j | 0 <= i < j < |all|
      ensures all[i].question != all[j].question
    {
      if j == |rows| {
        assert all[i] == rows[i];
      }
    }
  }

  /** The checks of `edit_question`: the administrator, then an existing row. */
  function EditCheck(users: seq<UserRow>, rows: seq<ChecklistRow>, currentUserId: nat, checklistId: nat): (r: Outcome)
    ensures r == Pass <==> ValidateSystemUser(users, currentUserId) == Pass
                           && exists i :: 0 <= i < |rows| && rows[i].id == checklistId
    ensures ValidateSystemUser(users, currentUserId).Fail? ==> r == ValidateSystemUser(users, currentUserId)
    ensures ValidateSystemUser(users, currentUserId) == Pass && r.Fail? ==> r.error == ValueError
  {
    var v := ValidateSystemUser(users, currentUserId);
    if v.Fail? then v
    else if FindQuestionById(rows, checklistId).None? then Fail(ValueError)
    else Pass
  }

  /** `UPDATE checklist SET question = %s WHERE id = %s`. */
  function EditRows(rows: seq<ChecklistRow>, checklistId: nat, question: string): seq<ChecklistRow> {
    MapWhere(rows, (c: ChecklistRow) => c.id == checklistId, (c: ChecklistRow) => c.(question := question))
  }

  /** `DELETE FROM checklist WHERE id = %s`. */
  function RemoveQuestion(rows: seq<ChecklistRow>, checklistId: nat): seq<ChecklistRow> {
    Filter(rows, (c: ChecklistRow) => c.id != checklistId)
  }

  /** Unlike an add, an edit may give a row a question another row already has: the list then
      holds the same question twice. */
  lemma EditCanDuplicate()
    ensures var admin := UserRow(1, "admin", "ibk1", "Admin", "hash", "", "SYSTEM", None, "T", None);
            var rows := [ChecklistRow(1, "a"), ChecklistRow(2, "b")];
            && QuestionsUnique(rows)
            && AddCheck([admin], rows, 1, "a") == Fail(ValueError)
            && EditCheck([admin], rows, 1, 2) == Pass
            && !QuestionsUnique(EditRows(rows, 2, "a"))
  {
    var admin := UserRow(1, "admin", "ibk1", "Admin", "hash", "", "SYSTEM", None, "T", None);
    var rows := [ChecklistRow(1, "a"), ChecklistRow(2, "b")];
    assert FindById([admin], 1) == Some(admin);
    var after := EditRows(rows, 2, "a");
    assert after[0].question == after[1].question;
  }

  class ChecklistStore {
    var questions: seq<ChecklistRow>
    var nextId: nat

    ghost predicate Valid()
      reads this
    {
      && IncreasingBy(questions, ChecklistId)
      && (forall i :: 0 <= i < |questions| ==> questions[i].id < nextId)
    }

    constructor ()
      ensures Valid() && questions == []
    {
      questions, nextId := [], 1;
    }

    /** `get_all_questions`: one entry per row, in table order. */
    function AllQuestions(): (r: seq<ChecklistRow>)
      reads this
      ensures |r| == |questions|
      ensures forall i :: 0 <= i < |r| ==> r[i].id == questions[i].id && r[i].question == questions[i].question
    {
      questions
    }

    /** `add_question`: storage errors propagate. */
    method AddQuestion(users: seq<UserRow>, currentUserId: nat, question: string, fails: bool) returns (r: Outcome)
      requires Valid()
      modifies this
      ensures Valid()
      ensures var check := AddCheck(users, old(questions), currentUserId, question);
              && (check.Fail? ==> r == check && questions == old(questions))
              && (check == Pass && fails ==> r == Fail(StorageError) && questions == old(questions))
              && (check == Pass && !fails ==> r == Pass && questions == old(questions) + [ChecklistRow(old(nextId), question)])
    {
      r := AddCheck(users, questions, currentUserId, question);
      if r.Fail? {
        return;
      }
      if fails {
        return Fail(StorageError);
      }
      questions := questions + [ChecklistRow(nextId, question)];
      nextId := nextId + 1;
    }

    /** `edit_question`: storage errors propagate. */
    method EditQuestion(users: seq<UserRow>, currentUserId: nat, checklistId: nat, question: string, fails: bool)
      returns (r: Outcome)
      requires Valid()
      modifies this
      ensures Valid()
      ensures var check := EditCheck(users, old(questions), currentUserId, checklistId);
              && (check.Fail? ==> r == check && questions == old(questions))
              && (check == Pass && fails ==> r == Fail(StorageError) && questions == old(questions))
              && (check == Pass && !fails ==> r == Pass && questions == EditRows(old(questions), checklistId, question))
    {
      r := EditCheck(users, questions, currentUserId, checklistId);
      if r.Fail? {
        return;
      }
      if fails {
        return Fail(StorageError);
      }
      questions := EditRows(questions, checklistId, question);
    }

    /** `delete_question`: an unknown id is a ValueError; a storage error propagates. */
    method DeleteQuestion(users: seq<UserRow>, currentUserId: nat, checklistId: nat, fails: bool) returns (r: Outcome)
      requires Valid()
      modifies this
      ensures Valid()
      ensures var check := EditCheck(users, old(questions), currentUserId, checklistId);
              && (check.Fail? ==> r == check && questions == old(questions))
              && (check == Pass && fails ==> r == Fail(StorageError) && questions == old(questions))
              && (check == Pass && !fails ==>
                    && r == Pass && questions == RemoveQuestion(old(questions), checklistId)
                    && FindQuestionById(questions, checklistId).None? && |questions| < |old(questions)|)
    {
      r := EditCheck(users, questions, currentUserId, checklistId);
      if r.Fail? {
        return;
      }
      if fails {
        return Fail(StorageError);
      }
      // The row was just found, so the delete's rowcount is positive and its ValueError
      // branch is not reached.
      FilterKeepsIncreasing(questions, (c: ChecklistRow) => c.id != checklistId, ChecklistId);
      FilterShrinks(questions, (c: ChecklistRow) => c.id != checklistId);
      var kept := RemoveQuestion(questions, checklistId);
      FilterKeysBelow(questions, (c: ChecklistRow) => c.id != checklistId, ChecklistId, nextId);
      questions := kept;
    }
  }
}
