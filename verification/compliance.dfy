/** `ComplianceService.getReconciliation`: the report over the ledger's tables. */
module Compliance {
  import opened Common
  import opened Ledger
  import opened LedgerTables
  import opened LedgerService
  import opened Engine
  import opened EngineCore

  function RowWallet(): EntryRow -> int {
    (e: EntryRow) => WalletLeg(LegOf(e))
  }

  /** The join of entries and user accounts, summed, is what the journal holds in wallets. */
  lemma {:induction false} FlatWallets(operations: seq<OperationRow>, entries: seq<EntryRow>)
    requires TablesValid(operations, entries)
    ensures Sum(entries, RowWallet()) == Sum(JournalOf(operations, entries), WalletPart)
  {
    if entries == [] {
      SumZero(JournalOf(operations, entries), WalletPart);
    } else {
      var n := |entries| - 1;
      FlatWallets(operations, entries[..n]);
      assert entries == entries[..n] + [entries[n]];
      JournalSumAppend(operations, entries[..n], entries[n], WalletLeg, WalletPart, _ => true);
    }
  }

  /** The ledger holds the book of some state of some run. */
  ghost predicate Reachable(b: Book) {
    exists cfg: Config, run: seq<State>, events: seq<Event>, k: nat ::
      ConfigOk(cfg) && IsRun(cfg, run, events) && k < |run| && run[k].book == b
  }

  lemma ReachableBalances(b: Book)
    requires Reachable(b)
    ensures Reconciliation(b).isBalanced
  {
    var cfg: Config, run: seq<State>, events: seq<Event>, k: nat :|
      ConfigOk(cfg) && IsRun(cfg, run, events) && k < |run| && run[k].book == b;
    Conservation(cfg, run, events, k, HTG);
  }

  /** What the float moved between two moments of the ledger. */
  function FloatMoved(before: Book, after: Book): int {
    Balance(after.journal, FLOAT, HTG) - Balance(before.journal, FLOAT, HTG)
  }

  /**
   Two statements outside a transaction: the wallets are summed at one moment and the float at a later one.
   On a ledger the engine can reach, the discrepancy is what the float moved in between, so the report is
   balanced exactly when that is nothing; on one and the same snapshot it always is.
   */
  method GetReconciliation(ledger: LedgerService, later: LedgerService) returns (report: Report)
    requires ledger.Valid() && later.Valid()
    ensures report.walletTotal == Reconciliation(ledger.Contents()).walletTotal
    ensures report.floatBalance == Reconciliation(later.Contents()).floatBalance
    ensures report.discrepancy == report.walletTotal + report.floatBalance
    ensures report.isBalanced <==> report.discrepancy == 0
    ensures Reachable(ledger.Contents()) ==>
              && report.discrepancy == FloatMoved(ledger.Contents(), later.Contents())
              && (later.Contents() == ledger.Contents() ==> report.isBalanced)
  {
    hide Reachable;
    var entries := ledger.entries;
    var wallets := 0;
    for i := 0 to |entries|
      invariant wallets == Sum(entries[..i], RowWallet())
    {
      SumPrefix(entries, i, RowWallet());
      var e := entries[i];
      if e.account.Wallet? {
        wallets := wallets + if e.direction == Credit then BigInt(e) else -BigInt(e);
      }
    }
    assert entries[..|entries|] == entries;
    FlatWallets(ledger.operations, entries);
    var float := later.GetBalance(FLOAT, HTG);
    var discrepancy := wallets + float;
    report := Report(wallets, float, discrepancy, discrepancy == 0);
    if Reachable(ledger.Contents()) {
      ReachableBalances(ledger.Contents());
    }
  }
}
