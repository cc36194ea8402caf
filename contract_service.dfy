/** Uploading contracts and listing them by lifecycle state. Every operation first validates
    the acting user; `activation` is the account-activation lookup. */
module ContractService {
  import opened Common
  import opened Users
  import opened BaseService
  import opened ContractRepository

  datatype UploadReply = UploadReply(filePath: string)

  /** Where an uploaded contract's original file is kept. */
  function StoredPath(contractName: string, fileName: string): string {
    "contracts/original/" + contractName + "_" + fileName
  }

  /** The checks of `upload_contract`, in order: the uploader, then a free (name, file) pair. */
  function UploadCheck(users: seq<UserRow>, activation: nat -> bool, rows: seq<ContractRow>,
                       uploaderId: nat, contractName: string, fileName: string): (r: Outcome)
    ensures ValidateUser(users, activation, uploaderId).Fail? ==> r == ValidateUser(users, activation, uploaderId)
    ensures r == Pass <==> ValidateUser(users, activation, uploaderId) == Pass
                           && forall i :: 0 <= i < |rows| ==> !SamePair(contractName, fileName, rows[i])
    ensures ValidateUser(users, activation, uploaderId) == Pass && r.Fail? ==> r.error == ValueError
  {
    var v := ValidateUser(users, activation, uploaderId);
    if v.Fail? then v
    else if FindByFilePath(rows, contractName, fileName).Some? then Fail(ValueError)
    else Pass
  }

  /** `upload_contract`: on passing its checks it inserts a state-0 row and returns the storage path. */
  method UploadContract(store: ContractStore, users: seq<UserRow>, activation: nat -> bool, uploaderId: nat,
                        contractName: string, fileName: string, fails: bool) returns (r: Result<UploadReply>)
    requires store.Valid()
    modifies store
    ensures store.Valid()
    ensures var check := UploadCheck(users, activation, old(store.contracts), uploaderId, contractName, fileName);
            && (check.Fail? ==> r == Failure(check.error) && store.contracts == old(store.contracts))
            && (check == Pass && fails ==> r == Failure(StorageError) && store.contracts == old(store.contracts))
            && (check == Pass && !fails ==>
                  && r == Success(UploadReply(StoredPath(contractName, fileName)))
                  && store.contracts == old(store.contracts) + [ContractRow(old(store.nextId), contractName, fileName,
                                                                            uploaderId, Uploaded, None, None, None, None, None)])
  {
    var check := UploadCheck(users, activation, store.contracts, uploaderId, contractName, fileName);
    if check.Fail? {
      return Failure(check.error);
    }
    var id := store.CreateContract(uploaderId, contractName, fileName, fails);
    if id.Failure? {
      return Failure(id.error);
    }
    r := Success(UploadReply(StoredPath(contractName, fileName)));
  }

  /** Uploading a fresh pair succeeds once: afterwards exactly one row holds the pair and a
      second upload of it is refused with ValueError. */
  lemma UploadTwice(users: seq<UserRow>, activation: nat -> bool, rows: seq<ContractRow>, uploaderId: nat,
                    contractName: string, fileName: string, id: nat)
    requires UploadCheck(users, activation, rows, uploaderId, contractName, fileName) == Pass
    ensures var after := rows + [ContractRow(id, contractName, fileName, uploaderId, Uploaded, None, None, None, None, None)];
            && UploadCheck(users, activation, after, uploaderId, contractName, fileName) == Fail(ValueError)
            && Count(after, (c: ContractRow) => SamePair(contractName, fileName, c)) == 1
  {
    var row := ContractRow(id, contractName, fileName, uploaderId, Uploaded, None, None, None, None, None);
    var after := rows + [row];
    var p := (c: ContractRow) => SamePair(contractName, fileName, c);
    assert after[|rows|] == row;
    CountAppend(rows, [row], p);
    assert Count([row], p) == 1 by {
      assert [row][1..] == [];
    }
  }

  /** The listings (`get_all_contracts` when `state` is absent, otherwise one state bucket):
      the user is validated first, then the table's rows are returned in table order. */
  function ListContracts(users: seq<UserRow>, activation: nat -> bool, userId: nat,
                         rows: seq<ContractRow>, state: Option<nat>): (r: Result<seq<ContractRow>>)
    ensures r.Failure? <==> ValidateUser(users, activation, userId).Fail?
    ensures r.Failure? ==> r.error == ValidateUser(users, activation, userId).error
    ensures r.Success? && state.None? ==> r.value == rows
    ensures r.Success? && state.Some? ==>
              && (forall i :: 0 <= i < |r.value| ==> r.value[i] in rows && r.value[i].currentState == state.value)
              && (forall i :: 0 <= i < |rows| && rows[i].currentState == state.value ==> rows[i] in r.value)
  {
    var v := ValidateUser(users, activation, userId);
    if v.Fail? then Failure(v.error)
    else if state.None? then Success(rows)
    else Success(Bucket(rows, state.value))
  }

  /** A contract whose state is in 0..4 is listed in exactly one of the five state listings. */
  lemma ListedInExactlyOneBucket(users: seq<UserRow>, activation: nat -> bool, userId: nat,
                                 rows: seq<ContractRow>, i: nat, s: nat)
    requires ValidateUser(users, activation, userId) == Pass
    requires i < |rows| && rows[i].currentState <= KeypointFinished && s <= KeypointFinished
    ensures rows[i] in ListContracts(users, activation, userId, rows, Some(s)).value <==> s == rows[i].currentState
  {
  }
}
