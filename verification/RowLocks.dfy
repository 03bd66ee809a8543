/** The row locks of AdvanceWinner: always in increasing match-number order, hence no deadlock. */
module RowLocks {
  import opened PowersOfTwo
  import opened Brackets
  import opened MatchTable
  import opened BracketTree
  import opened SingleElimination
  import opened BracketService
  import DoubleElimination

  predicate IsIncreasing(s: seq<int>) {
    forall i, j :: 0 <= i < j < |s| ==> s[i] < s[j]
  }

  /** Every edge of the bracket leads to a later match, and the loser's beyond the winner's. */
  predicate LeadsOnward(bm: BracketMatch) {
    && (bm.nextMatchNumber > 0 ==> bm.matchNumber < bm.nextMatchNumber)
    && (bm.loserNextMatchNumber > 0 ==> bm.matchNumber < bm.loserNextMatchNumber)
    && (bm.nextMatchNumber > 0 && bm.loserNextMatchNumber > 0 ==> bm.nextMatchNumber < bm.loserNextMatchNumber)
  }

  function LockNumbers(bm: BracketMatch, row: MatchRow): seq<int> {
    [bm.matchNumber]
    + (if row.wiring.nextMatchId.Some? then [bm.nextMatchNumber] else [])
    + (if row.wiring.loserNextMatchId.Some? && row.result.loserTeamId.Some? then [bm.loserNextMatchNumber] else [])
  }

  /** The matches whose rows AdvanceWinner locks, by number: strictly increasing, whatever the
      state of the row. */
  lemma {:induction false} LocksIncrease(bm: BracketMatch, idOf: map<int, int>, row: MatchRow)
    returns (numbers: seq<int>)
    requires LeadsOnward(bm) && bm.matchNumber in idOf && row.wiring == WiringOf(bm, idOf)
    ensures numbers == LockNumbers(bm, row)
    ensures IsIncreasing(numbers) && (forall i :: 0 <= i < |numbers| ==> numbers[i] in idOf)
    ensures var locks := LocksOf(row, idOf[bm.matchNumber]);
      |locks| == |numbers| && forall i :: 0 <= i < |numbers| ==> locks[i] == idOf[numbers[i]]
  {
    numbers := LockNumbers(bm, row);
  }

  lemma {:induction false} SingleEliminationLeadsOnward(e: nat, ranked: seq<SeedEntry>, m: int)
    requires IsMatchNumber(e, m)
    ensures LeadsOnward(BracketMatchAt(e, ranked, m))
  {
  }

  lemma {:induction false} DoubleEliminationLeadsOnward(e: nat, ranked: seq<SeedEntry>, k: int)
    requires e >= 1 && 1 <= k <= 2 * Pow2(e) - 2
    ensures LeadsOnward(DoubleElimination.DoubleMatchAt(e, ranked, k))
  {
  }

  /** A transaction on its way: the locks it will take, in order, and how many it has. */
  datatype Transaction = Transaction(locks: seq<int>, held: nat) {
    predicate IsWaiting() { held < |locks| }

    predicate Holds(lock: int) { lock in locks[..if held <= |locks| then held else |locks|] }
  }

  /** A circle of transactions, each waiting for a lock the next one holds. */
  ghost predicate IsDeadlock(circle: seq<Transaction>) {
    && |circle| > 0
    && (forall i :: 0 <= i < |circle| ==> circle[i].IsWaiting())
    && (forall i, j :: 0 <= i < |circle| && j == (if i + 1 < |circle| then i + 1 else 0) ==>
      circle[j].Holds(circle[i].locks[circle[i].held]))
  }

  /** Transactions that take increasing locks never deadlock. */
  lemma {:induction false} NoDeadlock(circle: seq<Transaction>)
    requires forall i :: 0 <= i < |circle| ==> IsIncreasing(circle[i].locks)
    ensures !IsDeadlock(circle)
  {
    if IsDeadlock(circle) {
      WantsGrow(circle, |circle| - 1);
    }
  }

  lemma {:induction false} WantsGrow(circle: seq<Transaction>, i: nat)
    requires IsDeadlock(circle) && i < |circle|
    requires forall i :: 0 <= i < |circle| ==> IsIncreasing(circle[i].locks)
    ensures circle[0].locks[circle[0].held] <= circle[i].locks[circle[i].held]
  {
    if i > 0 {
      WantsGrow(circle, i - 1);
      assert circle[i].Holds(circle[i - 1].locks[circle[i - 1].held]);
    }
  }

  /** The table holds the rows of these matches under distinct ids, wired as generated. */
  ghost predicate IsWiredAs(bms: seq<BracketMatch>, idOf: map<int, int>, db: map<int, MatchRow>) {
    && (forall m, m' :: m in idOf && m' in idOf && m != m' ==> idOf[m] != idOf[m'])
    && (forall m :: m in idOf ==>
      && 1 <= m <= |bms| && bms[m - 1].matchNumber == m && LeadsOnward(bms[m - 1])
      && idOf[m] in db && db[idOf[m]].wiring == WiringOf(bms[m - 1], idOf))
  }

  /** AdvanceWinner transactions for some matches, each holding some of its locks. */
  function Advances(idOf: map<int, int>, db: map<int, MatchRow>, ms: seq<int>, held: seq<nat>): seq<Transaction>
    requires |held| == |ms| && forall i :: 0 <= i < |ms| ==> ms[i] in idOf && idOf[ms[i]] in db
  {
    seq(|ms|, i requires 0 <= i < |ms| => Transaction(LocksOf(db[idOf[ms[i]]], idOf[ms[i]]), held[i]))
  }

  /** No AdvanceWinner transactions on a bracket ever wait for each other in a circle. */
  lemma {:induction false} AdvancesNeverDeadlock(bms: seq<BracketMatch>, idOf: map<int, int>, db: map<int, MatchRow>,
                                                 ms: seq<int>, held: seq<nat>)
    requires IsWiredAs(bms, idOf, db) && |held| == |ms| && forall i :: 0 <= i < |ms| ==>
      ms[i] in idOf && idOf[ms[i]] in db
    ensures !IsDeadlock(Advances(idOf, db, ms, held))
  {
    var circle := Advances(idOf, db, ms, held);
    var numbered := seq(|ms|, i requires 0 <= i < |ms| =>
      Transaction(LockNumbers(bms[ms[i] - 1], db[idOf[ms[i]]]), held[i]));
    forall i | 0 <= i < |ms|
      ensures IsIncreasing(numbered[i].locks) && |numbered[i].locks| == |circle[i].locks|
      ensures forall k :: 0 <= k < |numbered[i].locks| ==>
        numbered[i].locks[k] in idOf && circle[i].locks[k] == idOf[numbered[i].locks[k]]
    {
      var _ := LocksIncrease(bms[ms[i] - 1], idOf, db[idOf[ms[i]]]);
    }
    if IsDeadlock(circle) {
      forall i, j | 0 <= i < |ms| && j == (if i + 1 < |ms| then i + 1 else 0)
        ensures numbered[j].Holds(numbered[i].locks[numbered[i].held])
      {
        assert circle[i].IsWaiting();
        SameNumberHeld(idOf, circle[i], circle[j], numbered[i], numbered[j]);
      }
      assert IsDeadlock(numbered);
      NoDeadlock(numbered);
    }
  }

  /** A lock held by id is held by match number. */
  lemma {:induction false} SameNumberHeld(idOf: map<int, int>, waiting: Transaction, holder: Transaction,
                                         waitingByNumber: Transaction, holderByNumber: Transaction)
    requires forall m, m' :: m in idOf && m' in idOf && m != m' ==> idOf[m] != idOf[m']
    requires waiting.held == waitingByNumber.held && holder.held == holderByNumber.held
    requires |waiting.locks| == |waitingByNumber.locks| && |holder.locks| == |holderByNumber.locks|
    requires forall k :: 0 <= k < |waiting.locks| ==>
      waitingByNumber.locks[k] in idOf && waiting.locks[k] == idOf[waitingByNumber.locks[k]]
    requires forall k :: 0 <= k < |holder.locks| ==>
      holderByNumber.locks[k] in idOf && holder.locks[k] == idOf[holderByNumber.locks[k]]
    requires waiting.IsWaiting() && holder.Holds(waiting.locks[waiting.held])
    ensures holderByNumber.Holds(waitingByNumber.locks[waitingByNumber.held])
  {
    var n := if holder.held <= |holder.locks| then holder.held else |holder.locks|;
    var k :| 0 <= k < n && holder.locks[..n][k] == waiting.locks[waiting.held];
    assert holderByNumber.locks[..n][k] == waitingByNumber.locks[waitingByNumber.held];
  }

  lemma {:induction false} ByePassKeepsWiring(bms: seq<BracketMatch>, idOf: map<int, int>, n: nat, m: int)
    requires n <= |bms| && 1 <= m <= |bms|
    ensures ByePass(WiredRows(bms, idOf), bms, n)[m - 1].wiring == WiringOf(bms[m - 1], idOf)
    decreases n
  {
    if n > 0 {
      ByePassKeepsWiring(bms, idOf, n - 1, m);
    }
  }

  /** The brackets GenerateBracket persists are wired that way, in both elimination formats. */
  lemma {:induction false} PersistedBracketIsWired(e: nat, ranked: seq<SeedEntry>, bms: seq<BracketMatch>,
                                                   idOf: map<int, int>, db: map<int, MatchRow>)
    requires e >= 1 && (IsBracket(e, ranked, bms) || DoubleElimination.IsDoubleBracket(e, ranked, bms))
    requires Holds(db, idOf, ByePass(WiredRows(bms, idOf), bms, |bms|))
    ensures IsWiredAs(bms, idOf, db)
  {
    forall m | m in idOf
      ensures 1 <= m <= |bms| && bms[m - 1].matchNumber == m && LeadsOnward(bms[m - 1])
      ensures idOf[m] in db && db[idOf[m]].wiring == WiringOf(bms[m - 1], idOf)
    {
      ByePassKeepsWiring(bms, idOf, |bms|, m);
      if IsBracket(e, ranked, bms) {
        assert IsMatchNumber(e, m) && bms[m - 1] == BracketMatchAt(e, ranked, m);
        SingleEliminationLeadsOnward(e, ranked, m);
      } else {
        assert bms[m - 1] == DoubleElimination.DoubleMatchAt(e, ranked, m);
        DoubleEliminationLeadsOnward(e, ranked, m);
        DoubleElimination.EdgesIncrease(e, ranked, m);
      }
    }
  }
}
