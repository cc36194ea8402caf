/** The `contract` table and its lifecycle: a contract is created in state 0 and four
    transitions set it to 1 (checklist in progress), 2 (checklist finished), 3 (keypoint in
    progress) and 4 (keypoint finished). No transition looks at the current state. A
    transition catches a database error raised while its statement runs and reports `false`;
    creation and deletion let such errors propagate. `now` stands for the database's `NOW()`. */
module ContractRepository {
  import opened Common

  datatype ContractRow = ContractRow(
    id: nat,
    contractName: string,
    fileName: string,
    uploaderId: nat,
    currentState: nat,
    checklistProcesserId: Option<nat>,
    checklistProcessedAt: Option<int>,
    checklistPrintableFilePath: Option<string>,
    keypointProcesserId: Option<nat>,
    keypointProcessedAt: Option<int>)

  const Uploaded: nat := 0
  const ChecklistInProgress: nat := 1
  const ChecklistFinished: nat := 2
  const KeypointInProgress: nat := 3
  const KeypointFinished: nat := 4

  predicate StatesValid(rows: seq<ContractRow>) {
    forall i :: 0 <= i < |rows| ==> rows[i].currentState <= KeypointFinished
  }

  predicate IdsIncreasing(rows: seq<ContractRow>, nextId: nat) {
    && (forall i, j :: 0 <= i < j < |rows| ==> rows[i].id < rows[j].id)
    && (forall i :: 0 <= i < |rows| ==> rows[i].id < nextId)
  }

  // ---- the transitions, row by row ----

  function ProcessChecklistRow(processerId: nat, now: int): ContractRow -> ContractRow {
    (r: ContractRow) => r.(checklistProcesserId := Some(processerId), checklistProcessedAt := Some(now),
                           currentState := ChecklistInProgress)
  }

  function FinishChecklistRow(printablePath: string): ContractRow -> ContractRow {
    (r: ContractRow) => r.(checklistPrintableFilePath := Some(printablePath), currentState := ChecklistFinished)
  }

  function ProcessKeypointRow(processerId: nat, now: int): ContractRow -> ContractRow {
    (r: ContractRow) => r.(keypointProcesserId := Some(processerId), keypointProcessedAt := Some(now),
                           currentState := KeypointInProgress)
  }

  function FinishKeypointRow(): ContractRow -> ContractRow {
    (r: ContractRow) => r.(currentState := KeypointFinished)
  }

  /** One transition applied to the row with the given id. */
  function Transition(rows: seq<ContractRow>, contractId: nat, f: ContractRow -> ContractRow): seq<ContractRow> {
    MapWhere(rows, (r: ContractRow) => r.id == contractId, f)
  }

  /** Each transition writes its own state and fields into the addressed row only, and
      keeps ids and states in range. */
  lemma TransitionEffect(rows: seq<ContractRow>, contractId: nat, processerId: nat, now: int, path: string, i: nat)
    requires i < |rows|
    ensures var r := rows[i];
            && Transition(rows, contractId, ProcessChecklistRow(processerId, now))[i]
               == (if r.id == contractId
                   then r.(checklistProcesserId := Some(processerId), checklistProcessedAt := Some(now), currentState := 1)
                   else r)
            && Transition(rows, contractId, FinishChecklistRow(path))[i]
               == (if r.id == contractId then r.(checklistPrintableFilePath := Some(path), currentState := 2) else r)
            && Transition(rows, contractId, ProcessKeypointRow(processerId, now))[i]
               == (if r.id == contractId
                   then r.(keypointProcesserId := Some(processerId), keypointProcessedAt := Some(now), currentState := 3)
                   else r)
            && Transition(rows, contractId, FinishKeypointRow())[i]
               == (if r.id == contractId then r.(currentState := 4) else r)
  {
  }

  /** A transition keeps every id and keeps states in 0..4. */
  lemma TransitionKeepsTable(rows: seq<ContractRow>, nextId: nat, contractId: nat, f: ContractRow -> ContractRow)
    requires IdsIncreasing(rows, nextId) && StatesValid(rows)
    requires forall r :: f(r).id == r.id && f(r).currentState <= KeypointFinished
    ensures IdsIncreasing(Transition(rows, contractId, f), nextId) && StatesValid(Transition(rows, contractId, f))
  {
  }

  /** No guard: the state a transition writes does not depend on the state the row was in. */
  lemma TransitionsAreUnguarded(r: ContractRow, s: nat, processerId: nat, now: int, path: string)
    ensures ProcessChecklistRow(processerId, now)(r.(currentState := s)) == ProcessChecklistRow(processerId, now)(r)
    ensures FinishChecklistRow(path)(r.(currentState := s)) == FinishChecklistRow(path)(r)
    ensures ProcessKeypointRow(processerId, now)(r.(currentState := s)) == ProcessKeypointRow(processerId, now)(r)
    ensures FinishKeypointRow()(r.(currentState := s)) == FinishKeypointRow()(r)
  {
  }

  /** So the state is not monotonic: starting checklist review on a finished contract moves it back from 4 to 1. */
  lemma StateCanGoBack(r: ContractRow, processerId: nat, now: int)
    requires r.currentState == KeypointFinished
    ensures ProcessChecklistRow(processerId, now)(r).currentState < r.currentState
  {
  }

  // ---- the driver's parameter binding ----

  /** One value bound to a `%s` marker. */
  datatype Param = PNat(n: nat) | PStr(s: string)

  /** The second argument of `cursor.execute`: a tuple of values, or a bare value where a
      one-element tuple `(x,)` was meant (`(x)` is just `x`). */
  datatype Params = Tuple(items: seq<Param>) | Bare(item: Param)

  /** `cursor.execute` of an `UPDATE contract SET ... WHERE id=%s` with `markers` `%s` markers,
      the last of them the id's. The driver refuses parameters that are not a sequence, and a
      sequence whose length is not the number of markers; both raise a database error.
      Otherwise the rows whose id is the last value get `f`. Every transition passes the id
      as an integer. */
  function ExecuteUpdate(rows: seq<ContractRow>, markers: nat, params: Params, f: ContractRow -> ContractRow)
    : (r: Result<seq<ContractRow>>)
    ensures r.Failure? <==> params.Bare? || markers == 0 || |params.items| != markers
    ensures r.Failure? ==> r.error == StorageError
    ensures r.Success? ==> |r.value| == |rows|
  {
    if params.Bare? || markers == 0 || |params.items| != markers then Failure(StorageError)
    else match params.items[markers - 1]
      case PNat(id) => Success(Transition(rows, id, f))
      case PStr(_) => Success(rows)
  }

  datatype TransitionReply = TransitionReply(ok: bool, rows: seq<ContractRow>)

  /** The shared body of the four transitions: execute, commit and return `True`; any
      exception, from the driver or from storage (`fails`), is caught, the transaction rolled
      back and `False` returned. */
  function RunTransition(rows: seq<ContractRow>, markers: nat, params: Params, f: ContractRow -> ContractRow, fails: bool)
    : (r: TransitionReply)
    ensures r.ok <==> ExecuteUpdate(rows, markers, params, f).Success? && !fails
    ensures r.ok ==> r.rows == ExecuteUpdate(rows, markers, params, f).value
    ensures !r.ok ==> r.rows == rows
  {
    match ExecuteUpdate(rows, markers, params, f)
    case Failure(_) => TransitionReply(false, rows)
    case Success(updated) => if fails then TransitionReply(false, rows) else TransitionReply(true, updated)
  }

  /** With a tuple holding one value per marker and the id last, a transition commits exactly
      the row update `Transition`, or reports `False` with no change on a storage error. */
  lemma TupleRunsTransition(rows: seq<ContractRow>, values: seq<Param>, contractId: nat,
                            f: ContractRow -> ContractRow, fails: bool)
    ensures RunTransition(rows, |values| + 1, Tuple(values + [PNat(contractId)]), f, fails)
            == TransitionReply(!fails, if fails then rows else Transition(rows, contractId, f))
  {
    assert (values + [PNat(contractId)])[|values|] == PNat(contractId);
  }

  /** A bare parameter never reaches the table, whatever the statement and the storage do. */
  lemma BareNeverCommits(rows: seq<ContractRow>, markers: nat, p: Param, f: ContractRow -> ContractRow, fails: bool)
    ensures RunTransition(rows, markers, Bare(p), f, fails) == TransitionReply(false, rows)
  {
  }

  // ---- finish_keypoint as written ----

  /** `finish_keypoint` as written: its one marker gets `(contract_id)`, the bare id rather than
      a one-element tuple, so the driver refuses it, the exception is caught, the transaction
      rolled back and `False` returned, whatever the table holds. */
  function FinishKeypointAsWritten(rows: seq<ContractRow>, contractId: nat, fails: bool): (r: TransitionReply)
    ensures !r.ok && r.rows == rows
  {
    RunTransition(rows, 1, Bare(PNat(contractId)), FinishKeypointRow(), fails)
  }

  /** As written a contract in keypoint review is never finished, even with storage working;
      with the intended tuple `(contract_id,)` the same call moves it to state 4. */
  lemma FinishKeypointAsWrittenNeverFinishes(rows: seq<ContractRow>, i: nat)
    requires i < |rows| && rows[i].currentState == KeypointInProgress
    ensures !FinishKeypointAsWritten(rows, rows[i].id, false).ok
    ensures FinishKeypointAsWritten(rows, rows[i].id, false).rows[i].currentState == KeypointInProgress
    ensures var intended := RunTransition(rows, 1, Tuple([PNat(rows[i].id)]), FinishKeypointRow(), false);
            intended.ok && intended.rows[i].currentState == KeypointFinished
  {
    TupleRunsTransition(rows, [], rows[i].id, FinishKeypointRow(), false);
    assert [] + [PNat(rows[i].id)] == [PNat(rows[i].id)];
  }

  // ---- reads ----

  /** The rows in one state, in table order (`WHERE current_state = s`). */
  function Bucket(rows: seq<ContractRow>, s: nat): (b: seq<ContractRow>)
    ensures forall i :: 0 <= i < |b| ==> b[i] in rows && b[i].currentState == s
    ensures forall i :: 0 <= i < |rows| && rows[i].currentState == s ==> rows[i] in b
  {
    Filter(rows, (r: ContractRow) => r.currentState == s)
  }

  /** Distinct buckets share no row. */
  lemma BucketsDisjoint(rows: seq<ContractRow>, s: nat, t: nat)
    requires s != t
    ensures forall i, j :: 0 <= i < |Bucket(rows, s)| && 0 <= j < |Bucket(rows, t)| ==> Bucket(rows, s)[i] != Bucket(rows, t)[j]
  {
  }

  /** With every state in 0..4, the five buckets together hold exactly as many rows as the table. */
  lemma {:induction false} BucketsCoverTable(rows: seq<ContractRow>)
    requires StatesValid(rows)
    ensures |Bucket(rows, 0)| + |Bucket(rows, 1)| + |Bucket(rows, 2)| + |Bucket(rows, 3)| + |Bucket(rows, 4)| == |rows|
  {
    if rows != [] {
      assert StatesValid(rows[1..]);
      BucketsCoverTable(rows[1..]);
    }
  }

  /** `find_by_file_path`: the first row with both the contract name and the file name. */
  function FindByFilePath(rows: seq<ContractRow>, contractName: string, fileName: string): (r: Option<ContractRow>)
    ensures r.Some? ==> r.value in rows && r.value.contractName == contractName && r.value.fileName == fileName
    ensures r.None? <==> forall i :: 0 <= i < |rows| ==> !(rows[i].contractName == contractName && rows[i].fileName == fileName)
  {
    Find(rows, (c: ContractRow) => c.contractName == contractName && c.fileName == fileName)
  }

  predicate SamePair(contractName: string, fileName: string, c: ContractRow) {
    c.contractName == contractName && c.fileName == fileName
  }

  function ContractId(c: ContractRow): nat { c.id }

  /** `DELETE FROM contract WHERE id = %s`. */
  function RemoveById(rows: seq<ContractRow>, contractId: nat): seq<ContractRow> {
    Filter(rows, (c: ContractRow) => c.id != contractId)
  }

  class ContractStore {
    var contracts: seq<ContractRow>
    var nextId: nat

    ghost predicate Valid()
      reads this
    {
      nextId >= 1 && IdsIncreasing(contracts, nextId) && StatesValid(contracts)
    }

    constructor ()
      ensures Valid() && contracts == []
    {
      contracts, nextId := [], 1;
    }

    /** `create_contract`: a new row in state 0 and its id; a storage error propagates. */
    method CreateContract(uploaderId: nat, contractName: string, fileName: string, fails: bool)
      returns (r: Result<nat>)
      requires Valid()
      modifies this
      ensures Valid()
      ensures fails ==> r == Failure(StorageError) && contracts == old(contracts)
      ensures !fails ==> r == Success(old(nextId)) && r.value >= 1
      ensures !fails ==> contracts == old(contracts) + [ContractRow(old(nextId), contractName, fileName, uploaderId,
                                                                    Uploaded, None, None, None, None, None)]
    {
      if fails {
        return Failure(StorageError);
      }
      var row := ContractRow(nextId, contractName, fileName, uploaderId, Uploaded, None, None, None, None, None);
      contracts := contracts + [row];
      r := Success(nextId);
      nextId := nextId + 1;
    }

    /** One transition, run as `RunTransition` describes. */
    method Apply(markers: nat, params: Params, f: ContractRow -> ContractRow, fails: bool) returns (ok: bool)
      requires Valid()
      requires forall r :: f(r).id == r.id && f(r).currentState <= KeypointFinished
      modifies this
      ensures Valid()
      ensures ok == RunTransition(old(contracts), markers, params, f, fails).ok
      ensures contracts == RunTransition(old(contracts), markers, params, f, fails).rows
      ensures nextId == old(nextId)
    {
      var executed := ExecuteUpdate(contracts, markers, params, f);
      if executed.Failure? || fails {
        return false;
      }
      if params.items[markers - 1].PNat? {
        TransitionKeepsTable(contracts, nextId, params.items[markers - 1].n, f);
      }
      contracts := executed.value;
      ok := true;
    }

    /** `process_checklist`: `true` once committed, whether or not a row matched; `false` and no
        change on a storage error. */
    method ProcessChecklist(processerId: nat, contractId: nat, now: int, fails: bool) returns (ok: bool)
      requires Valid()
      modifies this
      ensures Valid()
      ensures ok == !fails
      ensures contracts == (if fails then old(contracts) else Transition(old(contracts), contractId, ProcessChecklistRow(processerId, now)))
    {
      TupleRunsTransition(contracts, [PNat(processerId)], contractId, ProcessChecklistRow(processerId, now), fails);
      ok := Apply(2, Tuple([PNat(processerId)] + [PNat(contractId)]), ProcessChecklistRow(processerId, now), fails);
    }

    /** `finish_checklist`, likewise. */
    method FinishChecklist(contractId: nat, printablePath: string, fails: bool) returns (ok: bool)
      requires Valid()
      modifies this
      ensures Valid()
      ensures ok == !fails
      ensures contracts == (if fails then old(contracts) else Transition(old(contracts), contractId, FinishChecklistRow(printablePath)))
    {
      TupleRunsTransition(contracts, [PStr(printablePath)], contractId, FinishChecklistRow(printablePath), fails);
      ok := Apply(2, Tuple([PStr(printablePath)] + [PNat(contractId)]), FinishChecklistRow(printablePath), fails);
    }

    /** `process_keypoint`, likewise. */
    method ProcessKeypoint(processerId: nat, contractId: nat, now: int, fails: bool) returns (ok: bool)
      requires Valid()
      modifies this
      ensures Valid()
      ensures ok == !fails
      ensures contracts == (if fails then old(contracts) else Transition(old(contracts), contractId, ProcessKeypointRow(processerId, now)))
    {
      TupleRunsTransition(contracts, [PNat(processerId)], contractId, ProcessKeypointRow(processerId, now), fails);
      ok := Apply(2, Tuple([PNat(processerId)] + [PNat(contractId)]), ProcessKeypointRow(processerId, now), fails);
    }

    /** `finish_keypoint` with its parameter passed as the one-element tuple `(contract_id,)`. */
    method FinishKeypoint(contractId: nat, fails: bool) returns (ok: bool)
      requires Valid()
      modifies this
      ensures Valid()
      ensures ok == !fails
      ensures contracts == (if fails then old(contracts) else Transition(old(contracts), contractId, FinishKeypointRow()))
    {
      TupleRunsTransition(contracts, [], contractId, FinishKeypointRow(), fails);
      ok := Apply(1, Tuple([] + [PNat(contractId)]), FinishKeypointRow(), fails);
    }

    /** `delete_contract`: `true` exactly when a row was removed; a storage error propagates. */
    method DeleteContract(contractId: nat, fails: bool) returns (r: Result<bool>)
      requires Valid()
      modifies this
      ensures Valid()
      ensures fails ==> r == Failure(StorageError) && contracts == old(contracts)
      ensures !fails ==> contracts == RemoveById(old(contracts), contractId)
      ensures !fails ==> r == Success(exists i :: 0 <= i < |old(contracts)| && old(contracts)[i].id == contractId)
    {
      if fails {
        return Failure(StorageError);
      }
      var kept := RemoveById(contracts, contractId);
      FilterKeepsTable(contracts, nextId, contractId);
      var removed := |kept| < |contracts|;
      FilterShrinks(contracts, (c: ContractRow) => c.id != contractId);
      contracts := kept;
      r := Success(removed);
    }

    /** `get_all_contracts`. */
    function AllContracts(): (r: seq<ContractRow>)
      reads this
      ensures |r| == |contracts| && forall i :: 0 <= i < |r| ==> r[i] == contracts[i]
    {
      contracts
    }

    /** The five state queries (`get_only_uploaded_contracts` ... `get_finished_keypoint_contracts`). */
    function ContractsInState(s: nat): (r: seq<ContractRow>)
      reads this
      ensures forall i :: 0 <= i < |r| ==> r[i] in contracts && r[i].currentState == s
      ensures forall i :: 0 <= i < |contracts| && contracts[i].currentState == s ==> contracts[i] in r
    {
      Bucket(contracts, s)
    }
  }

  lemma FilterKeepsTable(rows: seq<ContractRow>, nextId: nat, contractId: nat)
    requires IdsIncreasing(rows, nextId) && StatesValid(rows)
    ensures var kept := RemoveById(rows, contractId);
            IdsIncreasing(kept, nextId) && StatesValid(kept)
  {
    var kept := RemoveById(rows, contractId);
    FilterKeepsIncreasing(rows, (c: ContractRow) => c.id != contractId, ContractId);
    forall k | 0 <= k < |kept|
      ensures kept[k].id < nextId && kept[k].currentState <= KeypointFinished
    {
      var m :| 0 <= m < |rows| && rows[m] == kept[k];
    }
  }

}
