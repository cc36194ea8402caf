/** The `keypoint_result` table: which terms-and-conditions restrictions a contract was matched
    against, with the match rate (NULL for a result a user added by hand), and the report that
    joins a contract's results with the restriction they point to. */
module KeypointRepository {
  import opened Common
  import opened Sorting
  import opened ContractRepository
  import opened TermsService

  datatype KeypointRow = KeypointRow(id: nat, contractId: nat, termsId: nat, matchRate: Option<real>)

  function KeypointId(k: KeypointRow): nat { k.id }

  predicate ForPair(contractId: nat, termsId: nat, k: KeypointRow) {
    k.contractId == contractId && k.termsId == termsId
  }

  /** How many results connect this contract with this restriction. */
  function PairCount(rows: seq<KeypointRow>, contractId: nat, termsId: nat): nat {
    Count(rows, (k: KeypointRow) => ForPair(contractId, termsId, k))
  }

  // ---- find_result_by_contract_id ----

  /** One row of the `contract LEFT JOIN keypoint_result LEFT JOIN termsNconditions` query. */
  datatype JoinedRow = JoinedRow(
    contractId: nat,
    termsId: Option<nat>,
    termsCode: Option<string>,
    termsQuery: Option<string>,
    resultId: Option<nat>,
    matchRate: Option<real>)

  /** One entry of the report's `results` list. */
  datatype ResultItem = ResultItem(
    termsId: Option<nat>,
    termsCode: Option<string>,
    termsQuery: Option<string>,
    resultId: nat,
    matchRate: Option<real>)

  datatype ContractResults = ContractResults(contractId: nat, results: seq<ResultItem>)

  function ContractExists(contracts: seq<ContractRow>, contractId: nat): bool {
    Find(contracts, (c: ContractRow) => c.id == contractId).Some?
  }

  /** `WHERE kr.contract_id = c.id` for one contract. */
  function ResultsOf(rows: seq<KeypointRow>, contractId: nat): seq<KeypointRow> {
    Filter(rows, (k: KeypointRow) => k.contractId == contractId)
  }

  /** A stored result joined with its restriction; the restriction's columns are NULL when the
      referenced row is missing. */
  function JoinOne(contractId: nat, k: KeypointRow, terms: seq<TermsRow>): JoinedRow {
    match FindTerms(terms, k.termsId)
    case None => JoinedRow(contractId, None, None, None, Some(k.id), k.matchRate)
    case Some(t) => JoinedRow(contractId, Some(t.id), Some(t.code), Some(t.query), Some(k.id), k.matchRate)
  }

  function JoinAll(contractId: nat, ks: seq<KeypointRow>, terms: seq<TermsRow>): (r: seq<JoinedRow>)
    ensures |r| == |ks| && forall i :: 0 <= i < |ks| ==> r[i] == JoinOne(contractId, ks[i], terms)
  {
    seq(|ks|, i requires 0 <= i < |ks| => JoinOne(contractId, ks[i], terms))
  }

  predicate Rated(j: JoinedRow) { j.matchRate.Some? }
  predicate Unrated(j: JoinedRow) { j.matchRate.None? }

  /** The sort key that puts higher rates first. */
  function NegatedRate(j: JoinedRow): real {
    if j.matchRate.Some? then -j.matchRate.value else 0.0
  }

  /** Rates never increase along the rows, and every NULL rate comes after every rate. */
  predicate RateDescending(rows: seq<JoinedRow>) {
    forall i, j :: 0 <= i < j < |rows| && rows[j].matchRate.Some? ==>
      rows[i].matchRate.Some? && rows[i].matchRate.value >= rows[j].matchRate.value
  }

  /** `ORDER BY kr.match_rate DESC`: MySQL sorts NULL below every number, so NULL rates come
      last. Rows with equal rates are in no order the query promises; this one is one of them. */
  function ByRateDesc(rows: seq<JoinedRow>): (r: seq<JoinedRow>)
    ensures RateDescending(r)
    ensures multiset(r) == multiset(rows) && |r| == |rows|
  {
    var rated := Filter(rows, Rated);
    var sorted := SortBy(rated, NegatedRate);
    var unrated := Filter(rows, Unrated);
    FilterPartition(rows, Rated, Unrated);
    RatedPartDescending(rated, sorted);
    var r := sorted + unrated;
    assert RateDescending(r) by {
      forall i, j | 0 <= i < j < |r| && r[j].matchRate.Some?
        ensures r[i].matchRate.Some? && r[i].matchRate.value >= r[j].matchRate.value
      {
        if j < |sorted| {
          assert r[i] == sorted[i] && r[j] == sorted[j];
        } else {
          assert false;
        }
      }
    }
    assert |r| == |multiset(r)|;
    r
  }

  /** The rated rows, sorted on the negated rate, have descending rates. */
  lemma RatedPartDescending(rated: seq<JoinedRow>, sorted: seq<JoinedRow>)
    requires forall i :: 0 <= i < |rated| ==> Rated(rated[i])
    requires multiset(sorted) == multiset(rated) && SortedBy(sorted, NegatedRate)
    ensures forall i :: 0 <= i < |sorted| ==> sorted[i].matchRate.Some?
    ensures RateDescending(sorted)
  {
    forall i | 0 <= i < |sorted|
      ensures sorted[i].matchRate.Some?
    {
      assert sorted[i] in multiset(sorted);
      var m :| 0 <= m < |rated| && rated[m] == sorted[i];
    }
    forall i, j | 0 <= i < j < |sorted|
      ensures sorted[i].matchRate.value >= sorted[j].matchRate.value
    {
      assert NegatedRate(sorted[i]) <= NegatedRate(sorted[j]);
    }
  }

  /** A contract's stored results joined with their restrictions, highest rate first. */
  function RankedResults(rows: seq<KeypointRow>, terms: seq<TermsRow>, contractId: nat): (r: seq<JoinedRow>)
    ensures RateDescending(r)
    ensures multiset(r) == multiset(JoinAll(contractId, ResultsOf(rows, contractId), terms))
    ensures |r| == |ResultsOf(rows, contractId)|
  {
    ByRateDesc(JoinAll(contractId, ResultsOf(rows, contractId), terms))
  }

  /** The rows the query returns: none for an unknown contract, a single all-NULL row for a
      contract without results, otherwise one row per result, highest rate first. */
  function JoinRows(contracts: seq<ContractRow>, rows: seq<KeypointRow>, terms: seq<TermsRow>, contractId: nat): (r: seq<JoinedRow>)
    ensures r == [] <==> !ContractExists(contracts, contractId)
  {
    if !ContractExists(contracts, contractId) then []
    else if ResultsOf(rows, contractId) == [] then [JoinedRow(contractId, None, None, None, None, None)]
    else RankedResults(rows, terms, contractId)
  }

  function ItemOf(j: JoinedRow): ResultItem
    requires j.resultId.Some?
  {
    ResultItem(j.termsId, j.termsCode, j.termsQuery, j.resultId.value, j.matchRate)
  }

  /** The loop over the rows: rows without a result id are skipped, the others copied in order. */
  function ItemsOf(rows: seq<JoinedRow>): seq<ResultItem> {
    if rows == [] then []
    else
      var last := rows[|rows| - 1];
      ItemsOf(rows[..|rows| - 1]) + (if last.resultId.None? then [] else [ItemOf(last)])
  }

  /** When every row has a result id, nothing is skipped. */
  lemma {:induction false} ItemsOfAllPresent(rows: seq<JoinedRow>)
    requires forall i :: 0 <= i < |rows| ==> rows[i].resultId.Some?
    ensures |ItemsOf(rows)| == |rows|
    ensures forall i :: 0 <= i < |rows| ==> ItemsOf(rows)[i] == ItemOf(rows[i])
  {
    if rows != [] {
      var init := rows[..|rows| - 1];
      ItemsOfAllPresent(init);
      assert forall i :: 0 <= i < |init| ==> init[i] == rows[i];
    }
  }

  /** The report `find_result_by_contract_id` builds, as a function of the three tables. */
  function Report(contracts: seq<ContractRow>, rows: seq<KeypointRow>, terms: seq<TermsRow>, contractId: nat): Option<ContractResults> {
    var joined := JoinRows(contracts, rows, terms, contractId);
    if joined == [] then None else Some(ContractResults(contractId, ItemsOf(joined)))
  }

  /** The loop of `find_result_by_contract_id`: copies the rows that carry a result id. */
  method CollectItems(joined: seq<JoinedRow>) returns (items: seq<ResultItem>)
    ensures items == ItemsOf(joined)
  {
    items := [];
    var k := 0;
    while k < |joined|
      invariant 0 <= k <= |joined|
      invariant items == ItemsOf(joined[..k])
    {
      var row := joined[k];
      assert joined[..k + 1][..k] == joined[..k];
      k := k + 1;
      if row.resultId.None? {
        continue;
      }
      items := items + [ItemOf(row)];
    }
    assert joined[..k] == joined;
  }

  /** `find_result_by_contract_id`: the query, then the loop over its rows. */
  method FindResultByContract(contracts: seq<ContractRow>, rows: seq<KeypointRow>, terms: seq<TermsRow>, contractId: nat)
    returns (r: Option<ContractResults>)
    ensures r == Report(contracts, rows, terms, contractId)
    ensures r.None? <==> !ContractExists(contracts, contractId)
  {
    var joined := JoinRows(contracts, rows, terms, contractId);
    if joined == [] {
      return None;
    }
    var items := CollectItems(joined);
    r := Some(ContractResults(contractId, items));
  }

  /** The report of an existing contract lists its ranked results one for one; a contract
      without results gets an empty list. */
  lemma ReportOfResults(contracts: seq<ContractRow>, rows: seq<KeypointRow>, terms: seq<TermsRow>, contractId: nat)
    requires ContractExists(contracts, contractId)
    ensures Report(contracts, rows, terms, contractId).Some?
    ensures var rep := Report(contracts, rows, terms, contractId).value;
            var ranked := RankedResults(rows, terms, contractId);
            && rep.contractId == contractId
            && |rep.results| == |ranked|
            && forall i :: 0 <= i < |ranked| ==> ranked[i].resultId.Some? && rep.results[i] == ItemOf(ranked[i])
  {
    var ranked := RankedResults(rows, terms, contractId);
    if ResultsOf(rows, contractId) == [] {
      var nullRow := JoinedRow(contractId, None, None, None, None, None);
      assert [nullRow][..0] == [];
      assert ItemsOf([nullRow]) == [];
    } else {
      RankedHaveIds(rows, terms, contractId);
      ItemsOfAllPresent(ranked);
    }
  }

  lemma RankedHaveIds(rows: seq<KeypointRow>, terms: seq<TermsRow>, contractId: nat)
    ensures var ranked := RankedResults(rows, terms, contractId);
            forall i :: 0 <= i < |ranked| ==> ranked[i].resultId.Some?
  {
    var ranked := RankedResults(rows, terms, contractId);
    var joined := JoinAll(contractId, ResultsOf(rows, contractId), terms);
    forall i | 0 <= i < |ranked|
      ensures ranked[i].resultId.Some?
    {
      assert ranked[i] in multiset(joined);
    }
  }

  /** Every ranked entry is one of the contract's stored results, joined with its restriction. */
  lemma RankedAreStoredResults(rows: seq<KeypointRow>, terms: seq<TermsRow>, contractId: nat, i: nat)
    requires i < |RankedResults(rows, terms, contractId)|
    ensures exists k :: 0 <= k < |rows| && rows[k].contractId == contractId
                        && RankedResults(rows, terms, contractId)[i] == JoinOne(contractId, rows[k], terms)
  {
    var ranked := RankedResults(rows, terms, contractId);
    var mine := ResultsOf(rows, contractId);
    var joined := JoinAll(contractId, mine, terms);
    assert ranked[i] in multiset(joined);
    var m :| 0 <= m < |joined| && joined[m] == ranked[i];
    assert mine[m] in rows;
    var k :| 0 <= k < |rows| && rows[k] == mine[m];
  }

  /** Every stored result of the contract is among the ranked entries. */
  lemma StoredResultsAreRanked(rows: seq<KeypointRow>, terms: seq<TermsRow>, contractId: nat, k: nat)
    requires k < |rows| && rows[k].contractId == contractId
    ensures JoinOne(contractId, rows[k], terms) in RankedResults(rows, terms, contractId)
  {
    var ranked := RankedResults(rows, terms, contractId);
    var mine := ResultsOf(rows, contractId);
    var joined := JoinAll(contractId, mine, terms);
    assert rows[k] in mine;
    var m :| 0 <= m < |mine| && mine[m] == rows[k];
    assert joined[m] in multiset(ranked);
  }

  // ---- the stored table ----

  class KeypointStore {
    var results: seq<KeypointRow>
    var nextId: nat

    ghost predicate Valid()
      reads this
    {
      && IncreasingBy(results, KeypointId)
      && (forall i :: 0 <= i < |results| ==> results[i].id < nextId)
    }

    constructor ()
      ensures Valid() && results == []
    {
      results, nextId := [], 1;
    }

    /** `create_result_by_ai`: always inserts the rate; a storage error propagates. */
    method CreateByAi(contractId: nat, termsId: nat, matchRate: real, fails: bool) returns (r: Result<bool>)
      requires Valid()
      modifies this
      ensures Valid()
      ensures fails ==> r == Failure(StorageError) && results == old(results)
      ensures !fails ==> r == Success(true) && results == old(results) + [KeypointRow(old(nextId), contractId, termsId, Some(matchRate))]
    {
      if fails {
        return Failure(StorageError);
      }
      results := results + [KeypointRow(nextId, contractId, termsId, Some(matchRate))];
      nextId := nextId + 1;
      r := Success(true);
    }

    /** `create_result_by_user`: refuses a pair that already has a result, otherwise inserts a
        NULL rate. */
    method CreateByUser(contractId: nat, termsId: nat, fails: bool) returns (r: Result<bool>)
      requires Valid()
      modifies this
      ensures Valid()
      ensures PairCount(old(results), contractId, termsId) > 0 ==> r == Failure(ValueError) && results == old(results)
      ensures PairCount(old(results), contractId, termsId) == 0 && fails ==> r == Failure(StorageError) && results == old(results)
      ensures PairCount(old(results), contractId, termsId) == 0 && !fails ==>
                r == Success(true) && results == old(results) + [KeypointRow(old(nextId), contractId, termsId, None)]
    {
      if Find(results, (k: KeypointRow) => ForPair(contractId, termsId, k)).Some? {
        return Failure(ValueError);
      }
      if fails {
        return Failure(StorageError);
      }
      results := results + [KeypointRow(nextId, contractId, termsId, None)];
      nextId := nextId + 1;
      r := Success(true);
    }

    /** `delete_keypoint_result`: `true` exactly when a row with the id was removed. */
    method DeleteKeypointResult(resultId: nat, fails: bool) returns (r: Result<bool>)
      requires Valid()
      modifies this
      ensures Valid()
      ensures fails ==> r == Failure(StorageError) && results == old(results)
      ensures !fails ==> results == Filter(old(results), (k: KeypointRow) => k.id != resultId)
      ensures !fails ==> r == Success(exists i :: 0 <= i < |old(results)| && old(results)[i].id == resultId)
    {
      if fails {
        return Failure(StorageError);
      }
      var kept := Filter(results, (k: KeypointRow) => k.id != resultId);
      FilterKeepsIncreasing(results, (k: KeypointRow) => k.id != resultId, KeypointId);
      FilterShrinks(results, (k: KeypointRow) => k.id != resultId);
      FilterKeysBelow(results, (k: KeypointRow) => k.id != resultId, KeypointId, nextId);
      r := Success(|kept| < |results|);
      results := kept;
    }
  }

  /** A user's add leaves at most one result per (contract, restriction) pair. */
  lemma UserAddKeepsPairsUnique(rows: seq<KeypointRow>, id: nat, contractId: nat, termsId: nat, c: nat, t: nat)
    requires PairCount(rows, c, t) <= 1
    requires PairCount(rows, contractId, termsId) == 0
    ensures PairCount(rows + [KeypointRow(id, contractId, termsId, None)], c, t) <= 1
  {
    var row := KeypointRow(id, contractId, termsId, None);
    var p := (k: KeypointRow) => ForPair(c, t, k);
    CountAppend(rows, [row], p);
    assert [row][1..] == [];
  }

  /** The AI path has no such check: two AI adds of one pair leave two results for it. */
  lemma AiAddCanDuplicate(rows: seq<KeypointRow>, id1: nat, id2: nat, contractId: nat, termsId: nat, r1: real, r2: real)
    requires PairCount(rows, contractId, termsId) == 0
    ensures PairCount(rows + [KeypointRow(id1, contractId, termsId, Some(r1))] + [KeypointRow(id2, contractId, termsId, Some(r2))],
                      contractId, termsId) == 2
  {
    var a := KeypointRow(id1, contractId, termsId, Some(r1));
    var b := KeypointRow(id2, contractId, termsId, Some(r2));
    var p := (k: KeypointRow) => ForPair(contractId, termsId, k);
    CountAppend(rows, [a], p);
    CountAppend(rows + [a], [b], p);
    assert [a][1..] == [] && [b][1..] == [];
  }
}
