/** A chunk of filewrite in the log: what File.WriteTxn promises about its calls of log_write is what LogMachine
    and LogPanics ask of an operation. */
module FileLog {
  import opened Blocks
  import opened Maps
  import opened Fs
  import LM = LogMachine
  import LP = LogPanics

  /** The operation of process p has made the first k of the calls of log_write in txn, and is to make the next. */
  ghost predicate AtCall(s: LM.State, p: nat, txn: seq<nat>, k: nat) {
    p < |s.procs| && s.procs[p].InOp? && k < |txn| && s.procs[p].wrote == Logged(txn[..k])
  }

  /** Each call leaves the operation within its reservation, which is what the log assumes of an operation. */
  lemma CallWithinReservation(s: LM.State, p: nat, txn: seq<nat>, k: nat)
    requires Within(txn) && AtCall(s, p, txn, k)
    ensures |s.procs[p].wrote + {txn[k]}| <= MAXOPBLOCKS
    ensures s.procs[p].wrote + {txn[k]} == Logged(txn[..k + 1])
  {
    var wrote := s.procs[p].wrote;
    assert |wrote| < MAXOPBLOCKS;
    if txn[k] in wrote { assert wrote + {txn[k]} == wrote; }
    assert txn[..k + 1] == txn[..k] + [txn[k]];
  }

  /** With a log area of LOGSIZE blocks no call of filewrite meets "too big a transaction", whatever other
      operations are in progress. */
  lemma FilewriteIsNotRefused(s: LM.State, p: nat, txn: seq<nat>, k: nat)
    requires Within(txn) && AtCall(s, p, txn, k) && LM.Reachable(s) && |s.disk.log| >= LM.LOGSIZE
    ensures !LM.TooBig(s)
  {
    assert |s.procs[p].wrote| < MAXOPBLOCKS;
    LP.FreshWriteFits(s, p);
  }
}
