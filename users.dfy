/** The `user` table as the services read and write it: rows with auto-increment ids,
    lookups that return the first matching row, and single-row updates by id. */
module Users {
  import opened Common

  datatype UserRow = UserRow(
    id: nat,
    loginId: string,
    ibkId: string,
    name: string,
    password: string,          // the stored bcrypt hash
    hiearchy: string,
    systemRole: string,
    teamId: Option<int>,
    activate: string,          // 'T' when active
    refreshToken: Option<string>)

  /** Ids strictly increase in insertion order and stay below the next id to hand out. */
  predicate IdsIncreasing(users: seq<UserRow>, nextId: nat) {
    && (forall i, j :: 0 <= i < j < |users| ==> users[i].id < users[j].id)
    && (forall i :: 0 <= i < |users| ==> users[i].id < nextId)
  }

  function FindById(users: seq<UserRow>, id: nat): Option<UserRow> {
    Find(users, (u: UserRow) => u.id == id)
  }

  function FindByLoginId(users: seq<UserRow>, loginId: string): Option<UserRow> {
    Find(users, (u: UserRow) => u.loginId == loginId)
  }

  function FindByIbkId(users: seq<UserRow>, ibkId: string): Option<UserRow> {
    Find(users, (u: UserRow) => u.ibkId == ibkId)
  }

  /** With distinct ids, looking a row's id up finds that row. */
  lemma {:induction false} FindByIdAt(users: seq<UserRow>, nextId: nat, i: nat)
    requires IdsIncreasing(users, nextId)
    requires i < |users|
    ensures FindById(users, users[i].id) == Some(users[i])
  {
    if i > 0 {
      assert users[0].id != users[i].id;
      assert IdsIncreasing(users[1..], nextId);
      assert users[1..][i - 1] == users[i];
      FindByIdAt(users[1..], nextId, i - 1);
    }
  }

  /** `UPDATE user SET ... WHERE id = %s`: `f` applied to the row with that id. */
  function UpdateRow(users: seq<UserRow>, id: nat, f: UserRow -> UserRow): (r: seq<UserRow>)
    ensures |r| == |users|
    ensures forall i :: 0 <= i < |users| ==> r[i] == (if users[i].id == id then f(users[i]) else users[i])
  {
    MapWhere(users, (u: UserRow) => u.id == id, f)
  }

  /** An update that keeps ids keeps the table's id order. */
  lemma UpdateKeepsIds(users: seq<UserRow>, nextId: nat, id: nat, f: UserRow -> UserRow)
    requires IdsIncreasing(users, nextId)
    requires forall u :: f(u).id == u.id
    ensures IdsIncreasing(UpdateRow(users, id, f), nextId)
    ensures forall i :: 0 <= i < |users| ==> UpdateRow(users, id, f)[i].id == users[i].id
  {
  }

  /** The updated row is found again by id, changed by `f`. */
  lemma FindAfterUpdate(users: seq<UserRow>, nextId: nat, id: nat, f: UserRow -> UserRow)
    requires IdsIncreasing(users, nextId)
    requires forall u :: f(u).id == u.id
    ensures FindById(UpdateRow(users, id, f), id)
            == (if FindById(users, id).Some? then Some(f(FindById(users, id).value)) else None)
  {
    var updated := UpdateRow(users, id, f);
    UpdateKeepsIds(users, nextId, id, f);
    if FindById(users, id).Some? {
      var i :| 0 <= i < |users| && users[i].id == id;
      FindByIdAt(users, nextId, i);
      FindByIdAt(updated, nextId, i);
    }
  }

  /** Every other id's row is left alone. */
  lemma FindOtherAfterUpdate(users: seq<UserRow>, nextId: nat, id: nat, f: UserRow -> UserRow, other: nat)
    requires IdsIncreasing(users, nextId)
    requires forall u :: f(u).id == u.id
    requires other != id
    ensures FindById(UpdateRow(users, id, f), other) == FindById(users, other)
  {
    var updated := UpdateRow(users, id, f);
    UpdateKeepsIds(users, nextId, id, f);
    if FindById(users, other).Some? {
      var i :| 0 <= i < |users| && users[i].id == other;
      FindByIdAt(users, nextId, i);
      FindByIdAt(updated, nextId, i);
    }
  }

  function WithRefreshToken(token: Option<string>): UserRow -> UserRow {
    (u: UserRow) => u.(refreshToken := token)
  }

  /** No two rows share a login id, and no two share an IBK id. */
  predicate LoginIdsUnique(users: seq<UserRow>) {
    forall i, j :: 0 <= i < j < |users| ==> users[i].loginId != users[j].loginId
  }

  predicate IbkIdsUnique(users: seq<UserRow>) {
    forall i, j :: 0 <= i < j < |users| ==> users[i].ibkId != users[j].ibkId
  }
}
