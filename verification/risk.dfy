/** The risk heuristic (`calculate_risk_score`): start at 100, subtract
    penalties for an anomaly, failed transactions, low activity and a zero
    balance, and clamp to [0, 100]. */
module Risk {
  import opened Base
  import opened Json
  import opened Sums
  import opened Resolver

  function Min(a: int, b: int): int { if a < b then a else b }
  function Max(a: int, b: int): int { if a < b then b else a }

  /** `_to_int(v, default)`: `int(v)`, or `default` when it raises. */
  function ToIntOr(v: Json, default: int): int {
    ToInt(v).GetOr(default)
  }

  /** The heuristic on normalised fields, step by step as written. */
  function Score(anomaly: bool, failedTxs: int, txCount: int, balance: int): (r: int)
    ensures 0 <= r <= 100
  {
    var s := 100;
    var s := if anomaly then s - 50 else s;
    var s := s - Min(failedTxs * 5, 25);
    var s := s - Max(0, 10 - txCount);
    var s := if balance == 0 then s - 30 else s;
    Max(0, Min(100, s))
  }

  /** `calculate_risk_score(wallet_data)`: missing fields take their
      defaults, values `int()` rejects read as 0. */
  function CalculateRiskScore(wallet: seq<(string, Json)>): (r: int)
    ensures 0 <= r <= 100
  {
    var anomaly := Truthy(Lookup(wallet, "anomaly").GetOr(JBool(false)));
    var failedTxs := ToIntOr(Lookup(wallet, "failed_txs").GetOr(JInt(0)), 0);
    var txCount := ToIntOr(Lookup(wallet, "tx_count").GetOr(JInt(0)), 0);
    var balance := ToIntOr(Lookup(wallet, "balance").GetOr(JInt(0)), 0);
    Score(anomaly, failedTxs, txCount, balance)
  }

  /** The four penalties, each on its own. */
  function AnomalyPenalty(anomaly: bool): int { if anomaly then 50 else 0 }
  function FailurePenalty(failedTxs: int): int { Min(5 * failedTxs, 25) }
  function ActivityPenalty(txCount: int): int { Max(0, 10 - txCount) }
  function BalancePenalty(balance: int): int { if balance == 0 then 30 else 0 }

  /** Reporting an anomaly never raises the score. */
  lemma AnomalyNeverRaises(failedTxs: int, txCount: int, balance: int)
    ensures Score(true, failedTxs, txCount, balance) <= Score(false, failedTxs, txCount, balance)
  {
  }

  /** The failure penalty is capped: five or more failures all score alike. */
  lemma FailuresCapped(anomaly: bool, f1: int, f2: int, txCount: int, balance: int)
    requires f1 >= 5 && f2 >= 5
    ensures Score(anomaly, f1, txCount, balance) == Score(anomaly, f2, txCount, balance)
  {
  }

  /** More failures never raise the score. */
  lemma FailuresNeverHelp(anomaly: bool, f1: int, f2: int, txCount: int, balance: int)
    requires f1 <= f2
    ensures Score(anomaly, f2, txCount, balance) <= Score(anomaly, f1, txCount, balance)
  {
  }

  /** More transactions never lower the score. */
  lemma ActivityMonotone(anomaly: bool, failedTxs: int, t1: int, t2: int, balance: int)
    requires t1 <= t2
    ensures Score(anomaly, failedTxs, t1, balance) <= Score(anomaly, failedTxs, t2, balance)
  {
  }

  /** From ten transactions on there is no activity penalty. */
  lemma NoActivityPenaltyFromTen(anomaly: bool, failedTxs: int, txCount: int, balance: int)
    requires txCount >= 10
    ensures Score(anomaly, failedTxs, txCount, balance) ==
      Max(0, Min(100, 100 - AnomalyPenalty(anomaly) - FailurePenalty(failedTxs) - BalancePenalty(balance)))
  {
  }

  /** A clean, active, funded wallet scores 100; the worst case scores 0. */
  lemma ScoreExtremes(txCount: int, balance: int, failedTxs: int)
    requires txCount >= 10 && balance != 0 && failedTxs >= 5
    ensures Score(false, 0, txCount, balance) == 100
    ensures Score(true, failedTxs, 0, 0) == 0
  {
  }

  /** A zero balance costs 30 points, so with a non-negative failure
      count the score is at most 70. */
  lemma ZeroBalanceCapped(anomaly: bool, failedTxs: int, txCount: int)
    requires failedTxs >= 0
    ensures Score(anomaly, failedTxs, txCount, 0) <= 70
  {
  }

  /** `_to_int` accepts a negative failure count, and `min(failed_txs * 5,
      25)` then adds points: a zero balance no longer caps the score. */
  lemma NegativeFailuresLiftZeroBalance()
    ensures CalculateRiskScore([("failed_txs", JInt(-10)), ("tx_count", JInt(10))]) == 100
  {
    var wallet := [("failed_txs", JInt(-10)), ("tx_count", JInt(10))];
    assert Lookup(wallet, "failed_txs") == Some(JInt(-10));
    assert Lookup(wallet, "tx_count") == Some(JInt(10));
    assert Lookup(wallet, "balance") == None;
    assert Lookup(wallet, "anomaly") == None;
  }

  /** A missing "balance" key reads as a zero balance. */
  lemma MissingBalanceIsZero(wallet: seq<(string, Json)>)
    requires Lookup(wallet, "balance").None?
    ensures CalculateRiskScore(wallet) ==
      Score(Truthy(Lookup(wallet, "anomaly").GetOr(JBool(false))),
            ToIntOr(Lookup(wallet, "failed_txs").GetOr(JInt(0)), 0),
            ToIntOr(Lookup(wallet, "tx_count").GetOr(JInt(0)), 0),
            0)
  {
  }

  /** A missing field reads as its default; a balance `int()` rejects (a
      text that is not an integer, `None`, a list) reads as 0. */
  lemma DefaultsAndRejectedValues(wallet: seq<(string, Json)>)
    requires Lookup(wallet, "anomaly").None? && Lookup(wallet, "failed_txs").None? && Lookup(wallet, "tx_count").None?
    requires Lookup(wallet, "balance").None? || ToInt(Lookup(wallet, "balance").value).None?
    ensures CalculateRiskScore(wallet) == Score(false, 0, 0, 0)
    ensures CalculateRiskScore(wallet) == 60
  {
  }

  // ---------------------------------------------------------------
  // Scoring a resolved wallet (app.py's `/validate` route)
  // ---------------------------------------------------------------

  function RowJson(row: BalanceRow): Json {
    JObj([("denom", row.denom), ("symbol", row.symbol),
          ("amount", if row.denom == JStr(NativeDenom) then JFloat(row.amount as real / 1000000.0) else JInt(row.amount))])
  }

  /** A minor-unit amount as the displayed XION figure. */
  function Display(minor: int): Json {
    JFloat(minor as real / 1000000.0)
  }

  /** The dict `get_wallet_info` returns, with its keys as written: there
      is no "balance" key; the balance is under "uxion". */
  function InfoFields(info: WalletInfo, duration: real): (fields: seq<(string, Json)>)
    ensures Lookup(fields, "balance").None?
  {
    var reason := match info.reason case Some(r) => [("reason", JStr(r))] case None => [];
    var endpoint := match info.endpoint case Some(e) => JStr(e) case None => JNull;
    var fields := [ ("status", JStr(StatusName(info.status))),
      ("endpoint", endpoint),
      ("debug_reason", JStr(info.debugReason)),
      ("uxion", Display(info.total)),
      ("spendable_uxion", Display(info.spendable)),
      ("liquid_uxion", Display(info.liquid)),
      ("staked_uxion", Display(info.staked)),
      ("unbonding_uxion", Display(info.unbonding)),
      ("balances", JArr(seq(|info.balances|, i requires 0 <= i < |info.balances| => RowJson(info.balances[i])))),
      ("tx_count", JInt(info.txCount)),
      ("failed_txs", JInt(info.failedTxs)),
      ("address", JStr(info.address)),
      ("duration", JFloat(duration)),
      ("anomaly", JBool(info.anomaly)) ] + reason;
    LookupAbsent(fields, "balance");
    fields
  }

  /** The route as written: `calculate_risk_score(wallet_data)` on the
      resolver's dict, whose missing "balance" key reads as 0. */
  function ScoreWalletInfoAsWritten(info: WalletInfo, duration: real): (r: int)
    ensures 0 <= r <= 100
    ensures info.failedTxs >= 0 ==> r <= 70
  {
    LookupScoredKeys(info, duration);
    CalculateRiskScore(InfoFields(info, duration))
  }

  /** The route as evidently intended: the wallet's balance is scored. */
  function ScoreWalletInfo(info: WalletInfo, duration: real): (r: int)
    ensures 0 <= r <= 100
  {
    CalculateRiskScore([("balance", JInt(info.total))] + InfoFields(info, duration))
  }

  /** A healthy wallet of the shape the resolver returns. */
  predicate Healthy(info: WalletInfo) {
    !info.anomaly && info.failedTxs == 0 && info.txCount >= 10 && info.total != 0
  }

  /** As written, even a healthy wallet scores 70: the zero-balance
      penalty always applies. */
  lemma HealthyWalletCappedAsWritten(info: WalletInfo, duration: real)
    requires Healthy(info)
    ensures ScoreWalletInfoAsWritten(info, duration) == 70
  {
    var fields := InfoFields(info, duration);
    LookupScoredKeys(info, duration);
  }

  /** Corrected, a healthy wallet scores 100. */
  lemma HealthyWalletScoresFull(info: WalletInfo, duration: real)
    requires Healthy(info)
    ensures ScoreWalletInfo(info, duration) == 100
  {
    var fields := [("balance", JInt(info.total))] + InfoFields(info, duration);
    assert fields[1..] == InfoFields(info, duration);
    LookupScoredKeys(info, duration);
  }

  /** The scored keys of the resolver's dict hold its figures. */
  lemma LookupScoredKeys(info: WalletInfo, duration: real)
    ensures Lookup(InfoFields(info, duration), "anomaly") == Some(JBool(info.anomaly))
    ensures Lookup(InfoFields(info, duration), "failed_txs") == Some(JInt(info.failedTxs))
    ensures Lookup(InfoFields(info, duration), "tx_count") == Some(JInt(info.txCount))
  {
    var fields := InfoFields(info, duration);
    LookupAt(fields, 9, "tx_count");
    LookupAt(fields, 10, "failed_txs");
    LookupAt(fields, 13, "anomaly");
  }

  /** Lookup finds the first member with the key. */
  lemma {:induction false} LookupAt(fields: seq<(string, Json)>, k: nat, key: string)
    requires k < |fields| && fields[k].0 == key
    requires forall j :: 0 <= j < k ==> fields[j].0 != key
    ensures Lookup(fields, key) == Some(fields[k].1)
    decreases k
  {
    if k > 0 {
      assert forall j :: 0 <= j < k - 1 ==> fields[1..][j] == fields[j + 1];
      LookupAt(fields[1..], k - 1, key);
    }
  }
}
