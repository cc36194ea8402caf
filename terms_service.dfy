/** The terms-and-conditions restriction list: rows of (code, query) that an existing user
    may add, edit and delete. Adds and edits refuse a query or a code that another row
    already has, so both columns stay unique. */
module TermsService {
  import opened Common
  import opened Users

  datatype TermsRow = TermsRow(id: nat, code: string, query: string)

  function FindTerms(rows: seq<TermsRow>, id: nat): Option<TermsRow> {
    Find(rows, (t: TermsRow) => t.id == id)
  }

  predicate QueriesUnique(rows: seq<TermsRow>) {
    forall i, j :: 0 <= i < j < |rows| ==> rows[i].query != rows[j].query
  }

  predicate CodesUnique(rows: seq<TermsRow>) {
    forall i, j :: 0 <= i < j < |rows| ==> rows[i].code != rows[j].code
  }

  /** `validate_system_user` of this service: despite its name it only checks that the user exists. */
  function ValidateSystemUser(users: seq<UserRow>, currentUserId: nat): (r: Outcome)
    ensures r == Pass <==> exists i :: 0 <= i < |users| && users[i].id == currentUserId
    ensures r.Fail? ==> r.error == ValueError
  {
    if FindById(users, currentUserId).None? then Fail(ValueError) else Pass
  }

  /** Any existing user passes, whatever their role. */
  lemma NoRoleCheck(users: seq<UserRow>, i: nat)
    requires i < |users|
    ensures ValidateSystemUser(users, users[i].id) == Pass
  {
  }

  /** The checks of `add_query`: the user, then a new query, then a new code. */
  function AddCheck(users: seq<UserRow>, rows: seq<TermsRow>, currentUserId: nat, code: string, query: string): (r: Outcome)
    ensures r == Pass <==> ValidateSystemUser(users, currentUserId) == Pass
                           && (forall i :: 0 <= i < |rows| ==> rows[i].query != query)
                           && (forall i :: 0 <= i < |rows| ==> rows[i].code != code)
    ensures r.Fail? ==> r.error == ValueError
  {
    var v := ValidateSystemUser(users, currentUserId);
    if v.Fail? then v
    else if Find(rows, (t: TermsRow) => t.query == query).Some? then Fail(ValueError)
    else if Find(rows, (t: TermsRow) => t.code == code).Some? then Fail(ValueError)
    else Pass
  }

  /** An add that passes its checks keeps queries and codes unique. */
  lemma AddKeepsUnique(users: seq<UserRow>, rows: seq<TermsRow>, currentUserId: nat, code: string, query: string, id: nat)
    requires QueriesUnique(rows) && CodesUnique(rows)
    requires AddCheck(users, rows, currentUserId, code, query) == Pass
    ensures QueriesUnique(rows + [TermsRow(id, code, query)]) && CodesUnique(rows + [TermsRow(id, code, query)])
  {
    var all := rows + [TermsRow(id, code, query)];
    forall i, j | 0 <= i < j < |all|
      ensures all[i].query != all[j].query && all[i].code != all[j].code
    {
      if j == |rows| {
        assert all[i] == rows[i];
      }
    }
  }

  /** The checks of `edit_query`: the user, an existing row, and no other row with the new
      query or the new code. */
  function EditCheck(users: seq<UserRow>, rows: seq<TermsRow>, currentUserId: nat, id: nat, query: string, code: string): (r: Outcome)
    ensures r == Pass <==> ValidateSystemUser(users, currentUserId) == Pass
                           && FindTerms(rows, id).Some?
                           && (forall i :: 0 <= i < |rows| && rows[i].id != id ==> rows[i].query != query)
                           && (forall i :: 0 <= i < |rows| && rows[i].id != id ==> rows[i].code != code)
    ensures r.Fail? ==> r.error == ValueError
  {
    var v := ValidateSystemUser(users, currentUserId);
    if v.Fail? then v
    else if FindTerms(rows, id).None? then Fail(ValueError)
    else if Find(rows, (t: TermsRow) => t.query == query && t.id != id).Some? then Fail(ValueError)
    else if Find(rows, (t: TermsRow) => t.code == code && t.id != id).Some? then Fail(ValueError)
    else Pass
  }

  function EditRows(rows: seq<TermsRow>, id: nat, query: string, code: string): seq<TermsRow> {
    MapWhere(rows, (t: TermsRow) => t.id == id, (t: TermsRow) => t.(query := query, code := code))
  }

  /** A row may be saved with its own query and code unchanged. */
  lemma EditKeepingOwnValues(users: seq<UserRow>, rows: seq<TermsRow>, currentUserId: nat, i: nat)
    requires QueriesUnique(rows) && CodesUnique(rows)
    requires (forall a, b :: 0 <= a < b < |rows| ==> rows[a].id != rows[b].id)
    requires i < |rows| && ValidateSystemUser(users, currentUserId) == Pass
    ensures EditCheck(users, rows, currentUserId, rows[i].id, rows[i].query, rows[i].code) == Pass
  {
  }

  /** An edit that passes its checks changes only the target row's query and code, and keeps
      both columns unique. */
  lemma EditKeepsUnique(users: seq<UserRow>, rows: seq<TermsRow>, currentUserId: nat, id: nat, query: string, code: string)
    requires QueriesUnique(rows) && CodesUnique(rows)
    requires forall a, b :: 0 <= a < b < |rows| ==> rows[a].id != rows[b].id
    requires EditCheck(users, rows, currentUserId, id, query, code) == Pass
    ensures var after := EditRows(rows, id, query, code);
            && QueriesUnique(after) && CodesUnique(after)
            && forall i :: 0 <= i < |rows| ==> after[i].id == rows[i].id
                                                && (rows[i].id != id ==> after[i] == rows[i])
  {
  }

  function TermsId(t: TermsRow): nat { t.id }

  /** `DELETE FROM termsNconditions WHERE id = %s`. */
  function RemoveTerms(rows: seq<TermsRow>, id: nat): seq<TermsRow> {
    Filter(rows, (t: TermsRow) => t.id != id)
  }

  class TermsStore {
    var terms: seq<TermsRow>
    var nextId: nat

    ghost predicate Valid()
      reads this
    {
      && IncreasingBy(terms, TermsId)
      && (forall i :: 0 <= i < |terms| ==> terms[i].id < nextId)
    }

    constructor ()
      ensures Valid() && terms == []
    {
      terms, nextId := [], 1;
    }

    /** `add_query`: storage errors propagate. */
    method AddQuery(users: seq<UserRow>, currentUserId: nat, code: string, query: string, fails: bool) returns (r: Outcome)
      requires Valid()
      modifies this
      ensures Valid()
      ensures var check := AddCheck(users, old(terms), currentUserId, code, query);
              && (check.Fail? ==> r == check && terms == old(terms))
              && (check == Pass && fails ==> r == Fail(StorageError) && terms == old(terms))
              && (check == Pass && !fails ==> r == Pass && terms == old(terms) + [TermsRow(old(nextId), code, query)])
    {
      r := AddCheck(users, terms, currentUserId, code, query);
      if r.Fail? {
        return;
      }
      if fails {
        return Fail(StorageError);
      }
      terms := terms + [TermsRow(nextId, code, query)];
      nextId := nextId + 1;
    }

    /** `edit_query`: storage errors propagate. */
    method EditQuery(users: seq<UserRow>, currentUserId: nat, id: nat, query: string, code: string, fails: bool)
      returns (r: Outcome)
      requires Valid()
      modifies this
      ensures Valid()
      ensures var check := EditCheck(users, old(terms), currentUserId, id, query, code);
              && (check.Fail? ==> r == check && terms == old(terms))
              && (check == Pass && fails ==> r == Fail(StorageError) && terms == old(terms))
              && (check == Pass && !fails ==> r == Pass && terms == EditRows(old(terms), id, query, code))
    {
      r := EditCheck(users, terms, currentUserId, id, query, code);
      if r.Fail? {
        return;
      }
      if fails {
        return Fail(StorageError);
      }
      terms := EditRows(terms, id, query, code);
    }

    /** `delete_query`: an unknown id, or a delete that removes nothing, is a ValueError. */
    method DeleteQuery(users: seq<UserRow>, currentUserId: nat, id: nat, fails: bool) returns (r: Outcome)
      requires Valid()
      modifies this
      ensures Valid()
      ensures ValidateSystemUser(users, currentUserId).Fail? ==> r == ValidateSystemUser(users, currentUserId) && terms == old(terms)
      ensures ValidateSystemUser(users, currentUserId) == Pass && FindTerms(old(terms), id).None?
              ==> r == Fail(ValueError) && terms == old(terms)
      ensures ValidateSystemUser(users, currentUserId) == Pass && FindTerms(old(terms), id).Some? && fails
              ==> r == Fail(StorageError) && terms == old(terms)
      ensures ValidateSystemUser(users, currentUserId) == Pass && FindTerms(old(terms), id).Some? && !fails
              ==> && r == Pass && terms == RemoveTerms(old(terms), id)
                  && FindTerms(terms, id).None? && |terms| < |old(terms)|
    {
      r := ValidateSystemUser(users, currentUserId);
      if r.Fail? {
        return;
      }
      if FindTerms(terms, id).None? {
        return Fail(ValueError);
      }
      if fails {
        return Fail(StorageError);
      }
      // The row was just found, so the delete's rowcount is positive and its ValueError
      // branch is not reached.
      FilterKeepsIncreasing(terms, (t: TermsRow) => t.id != id, TermsId);
      FilterShrinks(terms, (t: TermsRow) => t.id != id);
      var kept := RemoveTerms(terms, id);
      FilterKeysBelow(terms, (t: TermsRow) => t.id != id, TermsId, nextId);
      terms := kept;
    }
  }
}
