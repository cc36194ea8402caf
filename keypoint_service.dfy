/** The keypoint-result operations the API exposes: a user's manual add, the AI's add with a
    match rate, the per-contract report, and deletion. */
module KeypointService {
  import opened Common
  import opened Users
  import opened BaseService
  import opened ContractRepository
  import opened TermsService
  import opened KeypointRepository

  /** `add_by_user`: the user is validated, then the pair is added with a NULL rate unless it
      already has a result. */
  method AddByUser(store: KeypointStore, users: seq<UserRow>, activation: nat -> bool, userId: nat,
                   contractId: nat, termsId: nat, fails: bool) returns (r: Result<bool>)
    requires store.Valid()
    modifies store
    ensures store.Valid()
    ensures ValidateUser(users, activation, userId).Fail? ==>
              r == Failure(ValidateUser(users, activation, userId).error) && store.results == old(store.results)
    ensures ValidateUser(users, activation, userId) == Pass && PairCount(old(store.results), contractId, termsId) > 0 ==>
              r == Failure(ValueError) && store.results == old(store.results)
    ensures ValidateUser(users, activation, userId) == Pass && PairCount(old(store.results), contractId, termsId) == 0 ==>
              && (fails ==> r == Failure(StorageError) && store.results == old(store.results))
              && (!fails ==> r == Success(true)
                             && store.results == old(store.results) + [KeypointRow(old(store.nextId), contractId, termsId, None)])
  {
    var v := ValidateUser(users, activation, userId);
    if v.Fail? {
      return Failure(v.error);
    }
    r := store.CreateByUser(contractId, termsId, fails);
  }

  /** The range check of `add_by_ai`, inclusive at both ends. */
  predicate RateInRange(matchRate: real) {
    0.0 <= matchRate <= 100.0
  }

  /** `add_by_ai`: no user and no duplicate check; a rate outside 0..100 is refused before any write. */
  method AddByAi(store: KeypointStore, matchRate: real, contractId: nat, termsId: nat, fails: bool) returns (r: Result<bool>)
    requires store.Valid()
    modifies store
    ensures store.Valid()
    ensures !RateInRange(matchRate) ==> r == Failure(ValueError) && store.results == old(store.results)
    ensures RateInRange(matchRate) && fails ==> r == Failure(StorageError) && store.results == old(store.results)
    ensures RateInRange(matchRate) && !fails ==>
              r == Success(true) && store.results == old(store.results) + [KeypointRow(old(store.nextId), contractId, termsId, Some(matchRate))]
  {
    if !RateInRange(matchRate) {
      return Failure(ValueError);
    }
    r := store.CreateByAi(contractId, termsId, matchRate, fails);
  }

  /** `get_all_results_by_contract_id`: the user is validated; a contract the query does not
      find is reported with an empty list. */
  method GetAllResults(users: seq<UserRow>, activation: nat -> bool, userId: nat,
                       contracts: seq<ContractRow>, rows: seq<KeypointRow>, terms: seq<TermsRow>, contractId: nat)
    returns (r: Result<ContractResults>)
    ensures r.Failure? <==> ValidateUser(users, activation, userId).Fail?
    ensures r.Failure? ==> r.error == ValidateUser(users, activation, userId).error
    ensures r.Success? ==> r.value == ResultsReply(contracts, rows, terms, contractId)
  {
    var v := ValidateUser(users, activation, userId);
    if v.Fail? {
      return Failure(v.error);
    }
    var found := FindResultByContract(contracts, rows, terms, contractId);
    if found.None? {
      return Success(ContractResults(contractId, []));
    }
    r := Success(found.value);
  }

  /** The report a validated user receives. */
  function ResultsReply(contracts: seq<ContractRow>, rows: seq<KeypointRow>, terms: seq<TermsRow>, contractId: nat): (r: ContractResults)
    ensures r.contractId == contractId
    ensures !ContractExists(contracts, contractId) ==> r.results == []
  {
    match Report(contracts, rows, terms, contractId)
    case None => ContractResults(contractId, [])
    case Some(rep) => rep
  }

  /** An unknown contract and a known contract without results get the same reply. */
  lemma UnknownLooksEmpty(contracts: seq<ContractRow>, rows: seq<KeypointRow>, terms: seq<TermsRow>, contractId: nat)
    requires forall k :: 0 <= k < |rows| ==> rows[k].contractId != contractId
    ensures ResultsReply(contracts, rows, terms, contractId) == ContractResults(contractId, [])
  {
    if ContractExists(contracts, contractId) {
      ReportOfResults(contracts, rows, terms, contractId);
      assert RankedResults(rows, terms, contractId) == [];
    }
  }

  /** For an existing contract the reply lists exactly as many entries as the contract has
      stored results, highest rate first with NULL rates last. */
  lemma ReplyCountsAndOrder(contracts: seq<ContractRow>, rows: seq<KeypointRow>, terms: seq<TermsRow>, contractId: nat)
    requires ContractExists(contracts, contractId)
    ensures var reply := ResultsReply(contracts, rows, terms, contractId).results;
            && |reply| == |ResultsOf(rows, contractId)|
            && forall i, j :: 0 <= i < j < |reply| && reply[j].matchRate.Some? ==>
                 reply[i].matchRate.Some? && reply[i].matchRate.value >= reply[j].matchRate.value
  {
    ReportOfResults(contracts, rows, terms, contractId);
    var ranked := RankedResults(rows, terms, contractId);
    var reply := ResultsReply(contracts, rows, terms, contractId).results;
    forall i, j | 0 <= i < j < |reply| && reply[j].matchRate.Some?
      ensures reply[i].matchRate.Some? && reply[i].matchRate.value >= reply[j].matchRate.value
    {
      assert reply[i] == ItemOf(ranked[i]) && reply[j] == ItemOf(ranked[j]);
    }
  }

  /** `delete_keypoint_result`: the user is validated; deleting an id no row has is a ValueError. */
  method DeleteKeypointResult(store: KeypointStore, users: seq<UserRow>, activation: nat -> bool, userId: nat,
                              resultId: nat, fails: bool) returns (r: Result<bool>)
    requires store.Valid()
    modifies store
    ensures store.Valid()
    ensures ValidateUser(users, activation, userId).Fail? ==>
              r == Failure(ValidateUser(users, activation, userId).error) && store.results == old(store.results)
    ensures ValidateUser(users, activation, userId) == Pass && fails ==>
              r == Failure(StorageError) && store.results == old(store.results)
    ensures ValidateUser(users, activation, userId) == Pass && !fails ==>
              && store.results == Filter(old(store.results), (k: KeypointRow) => k.id != resultId)
              && (r == Success(true) <==> exists i :: 0 <= i < |old(store.results)| && old(store.results)[i].id == resultId)
              && (r != Success(true) ==> r == Failure(ValueError))
  {
    var v := ValidateUser(users, activation, userId);
    if v.Fail? {
      return Failure(v.error);
    }
    var deleted := store.DeleteKeypointResult(resultId, fails);
    if deleted.Failure? {
      return Failure(deleted.error);
    }
    if !deleted.value {
      return Failure(ValueError);
    }
    r := Success(true);
  }
}
